/** Which error a call or a handler is given: success means that the value was
    delivered or buffered, and every other code has its own cause. */
module ChannelErrors {
  import opened Basics
  import opened Channel
  import opened ChannelQueue

  type Run<V> = seq<State<V>>
  type Actions<V> = seq<Action<V>>

  // ---- Handlers ----

  /** The error for every handler that the call completes. */
  function CauseOf<V>(s: State<V>, a: Action<V>): Error {
    if a.Cancel? || a.Reset? then OperationCanceled
    else if a.Close? || (a.StartPut? && s.putState == Closed) || (a.StartGet? && s.getState == Closed) then BrokenPipe
    else Success
  }

  ghost predicate ErrorsAreCaused<V>(s: State<V>, a: Action<V>, done: seq<Completion<V>>) {
    && (forall i | 0 <= i < |done| :: done[i].error == CauseOf(s, a))
    && (forall i | 0 <= i < |done| && done[i].GetDone? :: done[i].value.Some? <==> CauseOf(s, a) == Success)
  }

  lemma StepErrors<V>(s: State<V>, a: Action<V>)
    requires Inv(s) && Allowed(s, a)
    ensures ErrorsAreCaused(s, a, Step(s, a).completions)
  {
    if (a.Put? || a.StartPut?) && (s.putState == Buffer || s.putState == Waiter) {
      AcceptSucceedsWithValue(s, a.value);
      hide Accept, Inv;
    } else if (a.Get? || a.StartGet?) && (s.getState == Buffer || s.getState == Waiter) {
      TakeSucceedsWithValue(s);
      hide Take, Inv;
    }
  }

  lemma AcceptSucceedsWithValue<V>(s: State<V>, v: V)
    requires (s.putState == Waiter && s.waiters != []) || s.putState == Buffer
    ensures var o := Accept(s, v);
            forall i | 0 <= i < |o.completions| ::
              o.completions[i].error == Success && (o.completions[i].GetDone? ==> o.completions[i].value == Some(v))
  {
  }

  lemma TakeSucceedsWithValue<V>(s: State<V>)
    requires (s.getState == Buffer || s.getState == Waiter) && Takeable(s)
    ensures Take(s).value.Some?
    ensures forall i | 0 <= i < |Take(s).completions| :: Take(s).completions[i] == PutDone(s.waiters[0].id, Success)
  {
  }

  /** In every run, a handler is called with operation_canceled exactly by a cancel
      or a reset; with broken_pipe exactly by a close, or at its own start if its
      end is closed; and with success by every other call. A get is given a value
      exactly with success. */
  lemma HandlerErrors<V(!new)>(states: Run<V>, actions: Actions<V>, capacity: nat, n: nat, i: nat)
    requires IsRun(states, actions, capacity) && n < |actions| && Defined(states[n], actions[n])
    requires i < |Step(states[n], actions[n]).completions|
    ensures var s, a, done := states[n], actions[n], Step(states[n], actions[n]).completions;
            && (done[i].error == OperationCanceled <==> a.Cancel? || a.Reset?)
            && (done[i].error == BrokenPipe <==>
                  (a.Close? && s.getState == Block) || (a.StartPut? && s.putState == Closed) || (a.StartGet? && s.getState == Closed))
            && done[i].error != OperationWouldBlock
            && (done[i].error == BrokenPipe && a.Close? ==> done[i].GetDone?)
            && (done[i].error == BrokenPipe && !a.Close? ==> done[i].id == a.id && |done| == 1)
            && (done[i].GetDone? ==> (done[i].value.Some? <==> done[i].error == Success))
  {
    RunKeepsInv(states, actions, capacity, n);
    var s, a := states[n], actions[n];
    StepErrors(s, a);
    if a.Close? {
      CloseEndsGets(s);
    }
  }

  lemma CloseEndsGets<V>(s: State<V>)
    requires Inv(s)
    ensures s.getState != Block ==> Step(s, Close).completions == []
    ensures forall i | 0 <= i < |Step(s, Close).completions| :: Step(s, Close).completions[i].GetDone?
  {
  }

  /** A cancel and a reset complete everybody who waits. */
  lemma CancelEndsAllWaiting<V(!new)>(states: Run<V>, actions: Actions<V>, capacity: nat, n: nat)
    requires IsRun(states, actions, capacity) && n < |actions| && (actions[n].Cancel? || actions[n].Reset?)
    ensures var s, done := states[n], Step(states[n], actions[n]).completions;
            && states[n + 1].waiters == [] && |done| == |s.waiters|
            && forall i | 0 <= i < |done| ::
                 done[i].id == s.waiters[i].id && (done[i].PutDone? <==> s.waiters[i].PutOp?) && done[i].error == OperationCanceled
  {
  }

  // ---- Success means delivered or buffered ----

  /** The values of the puts that are told by the step that they succeeded. */
  function SucceededIn<V>(s: State<V>, a: Action<V>, o: Outcome<V>): seq<V> {
    match a
    case Put(v) => if o.error == Success then [v] else []
    case StartPut(id, v) => if EndsWell(o.completions, id) then [v] else []
    case _ => if s.waiters != [] && StartsWell(o.completions, s.waiters[0].id) then ValueOf(s.waiters[0]) else []
  }

  predicate EndsWell<V>(done: seq<Completion<V>>, id: OpId) {
    done != [] && done[|done| - 1] == PutDone(id, Success)
  }

  predicate StartsWell<V>(done: seq<Completion<V>>, id: OpId) {
    done != [] && done[0] == PutDone(id, Success)
  }

  lemma AcceptedIsKept<V>(s: State<V>, v: V)
    requires Inv(s) && (s.putState == Buffer || s.putState == Waiter)
    ensures var o := Accept(s, v);
            o.error == Success && s.buffer + [v] == ValuesDone(o.completions) + o.next.buffer && o.value == None
  {
    if s.putState == Waiter {
      OneDone(GetDone(s.waiters[0].id, Success, Some(v)));
    }
  }

  lemma TakenWasKept<V>(s: State<V>)
    requires Inv(s) && (s.getState == Buffer || s.getState == Waiter) && Takeable(s)
    ensures var o := Take(s);
            && o.value.Some? && ValuesDone(o.completions) == []
            && (if s.waiters != [] then
                  StartsWell(o.completions, s.waiters[0].id) && s.buffer + ValueOf(s.waiters[0]) == [o.value.value] + o.next.buffer
                else o.completions == [] && s.buffer == [o.value.value] + o.next.buffer)
  {
    if s.waiters != [] {
      OneDone<V>(PutDone(s.waiters[0].id, Success));
    }
  }

  ghost predicate KeepsSucceeded<V>(s: State<V>, a: Action<V>, o: Outcome<V>) {
    s.buffer + SucceededIn(s, a, o) == Delivered(o) + o.next.buffer
  }

  lemma PutKeepsSucceeded<V>(s: State<V>, a: Action<V>)
    requires Inv(s) && Defined(s, a) && (a.Put? || a.StartPut?)
    ensures KeepsSucceeded(s, a, Step(s, a))
  {
    if s.putState == Buffer || s.putState == Waiter {
      AcceptedIsKept(s, a.value);
      hide Inv, Accept;
      if a.StartPut? {
        ValuesDoneAppend(Accept(s, a.value).completions, PutDone(a.id, Success));
      }
    } else if a.StartPut? && s.putState == Closed {
      OneDone<V>(PutDone(a.id, BrokenPipe));
    }
  }

  lemma GetKeepsSucceeded<V>(s: State<V>, a: Action<V>)
    requires Inv(s) && Defined(s, a) && (a.Get? || a.StartGet?)
    ensures KeepsSucceeded(s, a, Step(s, a))
  {
    if s.getState == Buffer || s.getState == Waiter {
      TakenWasKept(s);
      hide Inv, Take;
      if a.StartGet? {
        ValuesDoneAppend(Take(s).completions, GetDone(a.id, Success, Take(s).value));
      }
    } else if a.StartGet? && s.getState == Closed {
      OneDone<V>(GetDone(a.id, BrokenPipe, None));
    }
  }

  lemma EndKeepsSucceeded<V>(s: State<V>, a: Action<V>)
    requires Inv(s) && Allowed(s, a) && (a.Close? || a.Cancel? || a.Reset?)
    ensures KeepsSucceeded(s, a, Step(s, a))
  {
    AllFinished(s.waiters, BrokenPipe);
    AllFinished(s.waiters, OperationCanceled);
    if s.waiters != [] {
      assert FinishAll(s.waiters, BrokenPipe)[0].error == BrokenPipe;
      assert FinishAll(s.waiters, OperationCanceled)[0].error == OperationCanceled;
    }
    hide ValuesDone, FinishAll;
    NothingDone<V>();
  }

  function SucceededBy<V>(states: Run<V>, actions: Actions<V>, n: nat): seq<V>
    requires n <= |states| && n <= |actions|
    requires forall i | 0 <= i < n :: Defined(states[i], actions[i])
  {
    if n == 0 then []
    else SucceededBy(states, actions, n - 1)
         + SucceededIn(states[n - 1], actions[n - 1], Step(states[n - 1], actions[n - 1]))
  }

  /** In every run, the values of the puts that succeeded, in the order in which
      they were told so, are those delivered and then those in the buffer. */
  lemma {:induction false} SuccessIsDeliveredOrBuffered<V(!new)>(states: Run<V>, actions: Actions<V>, capacity: nat, n: nat)
    requires IsRun(states, actions, capacity) && n <= |actions|
    ensures SucceededBy(states, actions, n) == DeliveredBy(states, actions, n) + states[n].buffer
  {
    if n > 0 {
      SuccessIsDeliveredOrBuffered(states, actions, capacity, n - 1);
      RunKeepsInv(states, actions, capacity, n - 1);
      var s, a := states[n - 1], actions[n - 1];
      assert Allowed(s, a) && states[n] == Step(s, a).next;
      if a.Put? || a.StartPut? {
        PutKeepsSucceeded(s, a);
      } else if a.Get? || a.StartGet? {
        GetKeepsSucceeded(s, a);
      } else {
        EndKeepsSucceeded(s, a);
      }
      hide Step, Inv, Allowed, SucceededIn, Delivered;
      FifoStep(SucceededBy(states, actions, n - 1), DeliveredBy(states, actions, n - 1), s.buffer,
               SucceededIn(s, a, Step(s, a)), Delivered(Step(s, a)), states[n].buffer);
    }
  }

  // ---- Calls ----

  /** A close since the last reset. */
  predicate ClosedBy<V>(actions: Actions<V>, n: nat)
    requires n <= |actions|
  {
    n > 0 && (actions[n - 1].Close? || (!actions[n - 1].Reset? && ClosedBy(actions, n - 1)))
  }

  lemma StepCloses<V>(s: State<V>, a: Action<V>)
    requires Inv(s) && Allowed(s, a)
    ensures Step(s, a).next.putState == Closed <==> a.Close? || (!a.Reset? && s.putState == Closed)
  {
  }

  lemma {:induction false} ClosedExactlyByClose<V(!new)>(states: Run<V>, actions: Actions<V>, capacity: nat, n: nat)
    requires IsRun(states, actions, capacity) && n <= |actions|
    ensures states[n].putState == Closed <==> ClosedBy(actions, n)
  {
    if n > 0 {
      ClosedExactlyByClose(states, actions, capacity, n - 1);
      RunKeepsInv(states, actions, capacity, n - 1);
      StepCloses(states[n - 1], actions[n - 1]);
    }
  }

  /** A put fails with broken_pipe exactly on a closed channel; otherwise it would
      block exactly if the put end is blocked; and it succeeds in all other cases,
      which means that the value is delivered or buffered. */
  lemma PutErrors<V(!new)>(states: Run<V>, actions: Actions<V>, capacity: nat, n: nat)
    requires IsRun(states, actions, capacity) && n < |actions| && actions[n].Put?
    ensures var s, o, v := states[n], Step(states[n], actions[n]), actions[n].value;
            && (o.error == BrokenPipe <==> ClosedBy(actions, n))
            && (o.error == OperationWouldBlock <==> s.putState == Block)
            && (o.error == Success || o.error == BrokenPipe || o.error == OperationWouldBlock)
            && (if o.error == Success then Delivered(o) + o.next.buffer == s.buffer + [v] else o.next == s && o.completions == [])
  {
    ClosedExactlyByClose(states, actions, capacity, n);
    RunKeepsInv(states, actions, capacity, n);
    PutKeepsSucceeded(states[n], actions[n]);
  }

  /** A get succeeds exactly if the channel holds a value, and then returns the
      oldest; otherwise its end is closed or blocked, and it says which. */
  lemma GetErrors<V(!new)>(states: Run<V>, actions: Actions<V>, capacity: nat, n: nat)
    requires IsRun(states, actions, capacity) && n < |actions| && actions[n].Get?
    ensures var s, o := states[n], Step(states[n], actions[n]);
            && (o.error == Success <==> Pending(s) != [])
            && (o.error == BrokenPipe <==> s.getState == Closed)
            && (o.error == OperationWouldBlock <==> s.getState == Block)
            && (o.error == BrokenPipe ==> ClosedBy(actions, n))
            && (if o.error == Success then o.value == Some(Pending(s)[0]) else o.value == None && o.next == s && o.completions == [])
  {
    ClosedExactlyByClose(states, actions, capacity, n);
    NobodyWaitsInVain(states, actions, capacity, n);
    RunKeepsInv(states, actions, capacity, n);
    var s := states[n];
    if s.getState == Buffer || s.getState == Waiter {
      TakeFromFront(s);
    }
  }

  /** Without cancel and reset the calls alone decide: a put would block exactly on
      a full, open channel where no get waits, and a get fails with broken_pipe
      exactly once the channel was closed and has nothing left. */
  lemma ErrorsWithoutCancel<V(!new)>(states: Run<V>, actions: Actions<V>, capacity: nat, n: nat)
    requires IsRun(states, actions, capacity) && n < |actions|
    requires forall i | 0 <= i < n :: !actions[i].Cancel? && !actions[i].Reset?
    requires Defined(states[n], actions[n])
    ensures var s, o, closed := states[n], Step(states[n], actions[n]), ClosedBy(actions, n);
            && (actions[n].Put? ==>
                  o.error == if closed then BrokenPipe
                             else if |s.buffer| == capacity && GetIds(s.waiters) == [] then OperationWouldBlock else Success)
            && (actions[n].Get? ==>
                  o.error == if Pending(s) != [] then Success else if closed then BrokenPipe else OperationWouldBlock)
  {
    var s := states[n];
    RunStaysTight(states, actions, capacity, n);
    RunKeepsInv(states, actions, capacity, n);
    ClosedExactlyByClose(states, actions, capacity, n);
    if actions[n].Put? {
      PutErrors(states, actions, capacity, n);
      OneKindOnly(s.waiters);
      if s.putState == Waiter {
        assert GetIds(s.waiters) == GetId(s.waiters[0]) + GetIds(s.waiters[1..]);
      }
    }
    if actions[n].Get? {
      GetErrors(states, actions, capacity, n);
    }
  }
}
