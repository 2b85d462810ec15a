/** What a user of a channel sees, from the calls and their outcomes alone: a
    queue. Values come out in the order in which they were accepted, waiting
    operations complete in the order in which they were started, and a closed
    channel first gives out what it still has. */
module ChannelQueue {
  import opened Basics
  import opened Channel

  // ---- Observations ----

  /** The value that the call adds to the channel, unless it is refused. */
  function Accepted<V>(a: Action<V>, o: Outcome<V>): seq<V> {
    match a
    case Put(v) => if o.error == Success then [v] else []
    case StartPut(_, v) => if Refused(o) then [] else [v]
    case _ => []
  }

  predicate Refused<V>(o: Outcome<V>) {
    o.completions != [] && o.completions[0].error == BrokenPipe
  }

  /** The values that getters receive through the call. */
  function Delivered<V>(o: Outcome<V>): seq<V> {
    Optional(o.value) + ValuesDone(o.completions)
  }

  function Optional<V>(v: Option<V>): seq<V> {
    if v.Some? then [v.value] else []
  }

  function ValuesDone<V>(done: seq<Completion<V>>): seq<V> {
    if done == [] then []
    else ValueDone(done[0]) + ValuesDone(done[1..])
  }

  function ValueDone<V>(done: Completion<V>): seq<V> {
    if done.GetDone? then Optional(done.value) else []
  }

  /** How many puts the call cancels. */
  function Withdrawn<V>(done: seq<Completion<V>>): nat {
    if done == [] then 0
    else (if CancelsPut(done[0]) then 1 else 0) + Withdrawn(done[1..])
  }

  predicate CancelsPut<V>(done: Completion<V>) {
    done.PutDone? && done.error == OperationCanceled
  }

  function Cut<V>(q: seq<V>, n: nat): seq<V> {
    if n <= |q| then q[..|q| - n] else []
  }

  // ---- Values ----

  lemma {:induction false} AllFinished<V>(ops: seq<Op<V>>, error: Error)
    ensures ValuesDone(FinishAll(ops, error)) == []
    ensures Withdrawn(FinishAll(ops, error)) == if error == OperationCanceled then |Values(ops)| else 0
  {
    if ops != [] {
      assert FinishAll(ops, error)[1..] == FinishAll(ops[1..], error);
      AllFinished(ops[1..], error);
    }
  }

  lemma {:induction false} ValuesAppend<V>(ops: seq<Op<V>>, op: Op<V>)
    ensures Values(ops + [op]) == Values(ops) + ValueOf(op)
  {
    hide ValueOf;
    if ops == [] {
      assert ops + [op] == [op];
    } else {
      assert (ops + [op])[1..] == ops[1..] + [op];
      ValuesAppend(ops[1..], op);
    }
  }

  lemma {:induction false} ValuesDoneAppend<V>(done: seq<Completion<V>>, last: Completion<V>)
    ensures ValuesDone(done + [last]) == ValuesDone(done) + ValueDone(last)
    ensures Withdrawn(done + [last]) == Withdrawn(done) + if CancelsPut(last) then 1 else 0
  {
    hide ValueDone, CancelsPut;
    if done == [] {
      assert done + [last] == [last];
    } else {
      assert (done + [last])[1..] == done[1..] + [last];
      ValuesDoneAppend(done[1..], last);
    }
  }

  lemma OneDone<V>(done: Completion<V>)
    ensures ValuesDone([done]) == ValueDone(done) && Withdrawn([done]) == if CancelsPut(done) then 1 else 0
    ensures GetsDone([done]) == GetEnded(done) && PutsDone([done]) == PutEnded(done)
  {
    assert [done][1..] == [];
  }

  lemma AcceptAtBack<V>(s: State<V>, v: V)
    requires Inv(s) && (s.putState == Buffer || s.putState == Waiter)
    ensures var o := Accept(s, v);
            && o.value == None && Withdrawn(o.completions) == 0
            && ValuesDone(o.completions) + Pending(o.next) == Pending(s) + [v]
  {
    if s.putState == Waiter {
      NoValuesOfGets(s.waiters);
      NoValuesOfGets(s.waiters[1..]);
    }
  }

  lemma TakeFromFront<V>(s: State<V>)
    requires Inv(s) && (s.getState == Buffer || s.getState == Waiter) && Takeable(s)
    ensures var o := Take(s);
            && o.value.Some? && Withdrawn(o.completions) == 0 && ValuesDone(o.completions) == []
            && [o.value.value] + Pending(o.next) == Pending(s)
  {
    if s.waiters != [] {
      var first, rest := s.waiters[0].value, Values(s.waiters[1..]);
      assert Values(s.waiters) == [first] + rest;
      if s.getState == Buffer {
        assert [s.buffer[0]] + (s.buffer + [first])[1..] == s.buffer + [first];
      }
    }
  }

  ghost predicate IsQueueStep<V>(s: State<V>, a: Action<V>, o: Outcome<V>) {
    && Withdrawn(o.completions) <= |Values(s.waiters)|
    && Delivered(o) + Pending(o.next) == Cut(Pending(s) + Accepted(a, o), Withdrawn(o.completions))
  }

  /** Nothing is withdrawn. */
  ghost predicate Advances<V>(s: State<V>, a: Action<V>, o: Outcome<V>) {
    Withdrawn(o.completions) == 0 && Delivered(o) + Pending(o.next) == Pending(s) + Accepted(a, o)
  }

  lemma AdvancesIsQueueStep<V>(s: State<V>, a: Action<V>, o: Outcome<V>)
    requires Advances(s, a, o)
    ensures IsQueueStep(s, a, o)
  {
    hide Withdrawn, Delivered, Pending, Accepted, Values;
  }

  lemma ServedPutAdvances<V>(s: State<V>, a: Action<V>)
    requires Inv(s) && Defined(s, a) && (a.Put? || a.StartPut?)
    requires s.putState == Buffer || s.putState == Waiter
    ensures Advances(s, a, Step(s, a))
  {
    AcceptAtBack(s, a.value);
    AcceptSucceeds(s, a.value);
    hide Inv, Accept, Values, ValuesDone, Withdrawn, Pending, Advances;
    var o := Accept(s, a.value);
    if a.StartPut? {
      StartedPutAdvances(s, a, o);
    } else {
      PlainPutAdvances(s, a, o);
    }
  }

  lemma StartedPutAdvances<V>(s: State<V>, a: Action<V>, o: Outcome<V>)
    requires a.StartPut? && o.value == None && Withdrawn(o.completions) == 0 && (o.completions != [] ==> o.completions[0].error == Success)
    requires ValuesDone(o.completions) + Pending(o.next) == Pending(s) + [a.value]
    ensures Advances(s, a, o.(completions := o.completions + [PutDone(a.id, Success)]))
  {
    hide ValuesDone, Withdrawn, Pending;
    ValuesDoneAppend(o.completions, PutDone(a.id, Success));
  }

  lemma PlainPutAdvances<V>(s: State<V>, a: Action<V>, o: Outcome<V>)
    requires a.Put? && o.error == Success && o.value == None && Withdrawn(o.completions) == 0
    requires ValuesDone(o.completions) + Pending(o.next) == Pending(s) + [a.value]
    ensures Advances(s, a, o)
  {
    hide ValuesDone, Withdrawn, Pending;
  }

  lemma WaitingPutAdvances<V>(s: State<V>, a: Action<V>)
    requires Inv(s) && Defined(s, a) && (a.Put? || a.StartPut?)
    requires s.putState == Block || s.putState == Closed
    ensures Advances(s, a, Step(s, a))
  {
    if a.StartPut? && s.putState == Block {
      ValuesAppend(s.waiters, PutOp(a.id, a.value));
      hide Inv, Values;
      assert s.buffer + (Values(s.waiters) + [a.value]) == s.buffer + Values(s.waiters) + [a.value];
    } else if a.StartPut? {
      OneDone<V>(PutDone(a.id, BrokenPipe));
      hide Inv, Pending, ValuesDone, Withdrawn;
    } else {
      hide Inv, Pending;
    }
  }

  lemma AcceptSucceeds<V>(s: State<V>, v: V)
    requires (s.putState == Waiter && s.waiters != []) || s.putState == Buffer
    ensures var o := Accept(s, v); o.error == Success && forall i | 0 <= i < |o.completions| :: o.completions[i].error == Success
  {
  }

  lemma ServedGetAdvances<V>(s: State<V>, a: Action<V>)
    requires Inv(s) && Defined(s, a) && (a.Get? || a.StartGet?)
    requires s.getState == Buffer || s.getState == Waiter
    ensures Advances(s, a, Step(s, a))
  {
    TakeFromFront(s);
    hide Inv, Take, Values, ValuesDone, Withdrawn, Pending, Advances;
    var o := Take(s);
    if a.StartGet? {
      StartedGetAdvances(s, a, o);
    } else {
      PlainGetAdvances(s, a, o);
    }
  }

  lemma StartedGetAdvances<V>(s: State<V>, a: Action<V>, o: Outcome<V>)
    requires a.StartGet? && o.value.Some? && Withdrawn(o.completions) == 0 && ValuesDone(o.completions) == []
    requires [o.value.value] + Pending(o.next) == Pending(s)
    ensures Advances(s, a, o.(value := None, completions := o.completions + [GetDone(a.id, Success, o.value)]))
  {
    hide ValuesDone, Withdrawn, Pending;
    ValuesDoneAppend(o.completions, GetDone(a.id, Success, o.value));
  }

  lemma PlainGetAdvances<V>(s: State<V>, a: Action<V>, o: Outcome<V>)
    requires a.Get? && o.value.Some? && Withdrawn(o.completions) == 0 && ValuesDone(o.completions) == []
    requires [o.value.value] + Pending(o.next) == Pending(s)
    ensures Advances(s, a, o)
  {
    hide ValuesDone, Withdrawn, Pending;
  }

  lemma WaitingGetAdvances<V>(s: State<V>, a: Action<V>)
    requires Inv(s) && Defined(s, a) && (a.Get? || a.StartGet?)
    requires s.getState == Block || s.getState == Closed
    ensures Advances(s, a, Step(s, a))
  {
    if a.StartGet? && s.getState == Block {
      ValuesAppend(s.waiters, GetOp(a.id));
      hide Inv, Values;
    } else if a.StartGet? {
      OneDone<V>(GetDone(a.id, BrokenPipe, None));
      hide Inv, Pending, ValuesDone, Withdrawn;
    } else {
      hide Inv, Pending;
    }
  }

  lemma CloseAdvances<V>(s: State<V>)
    requires Inv(s)
    ensures Advances(s, Close, Step(s, Close))
  {
    AllFinished(s.waiters, BrokenPipe);
    if s.getState == Block {
      NoValuesOfGets(s.waiters);
    }
    hide Inv, ValuesDone, Withdrawn, FinishAll;
    assert ValuesDone<V>([]) == [] && Withdrawn<V>([]) == 0 by { NothingDone<V>(); }
  }

  lemma NothingDone<V>()
    ensures ValuesDone<V>([]) == [] && Withdrawn<V>([]) == 0
  {
  }

  /** A cancel withdraws what the waiting putters brought; and a reset that finds
      the buffer empty does no more. */
  lemma CancelIsQueueStep<V>(s: State<V>, a: Action<V>)
    requires Inv(s) && Allowed(s, a) && (a.Cancel? || a.Reset?)
    ensures IsQueueStep(s, a, Step(s, a))
  {
    var o := Step(s, a);
    assert o.next.waiters == [] && o.next.buffer == s.buffer && o.value == None && Accepted(a, o) == [];
    assert o.completions == FinishAll(s.waiters, OperationCanceled);
    hide Inv, Step, FinishAll, Accepted;
    WithdrawAll(s, a, o);
  }

  lemma WithdrawAll<V>(s: State<V>, a: Action<V>, o: Outcome<V>)
    requires o.next.waiters == [] && o.next.buffer == s.buffer && o.value == None && Accepted(a, o) == []
    requires o.completions == FinishAll(s.waiters, OperationCanceled)
    ensures IsQueueStep(s, a, o)
  {
    AllFinished(s.waiters, OperationCanceled);
    assert Values(o.next.waiters) == [];
    hide Values, ValuesDone, Withdrawn, FinishAll, Accepted;
    assert Delivered(o) + Pending(o.next) == s.buffer;
    assert Pending(s) + Accepted(a, o) == s.buffer + Values(s.waiters);
  }

  /** One call on the channel is one step of a queue: it takes from the front,
      adds at the back, and a cancel cuts off what waiting putters brought. */
  lemma StepIsQueueStep<V>(s: State<V>, a: Action<V>)
    requires Inv(s) && Allowed(s, a)
    ensures IsQueueStep(s, a, Step(s, a))
  {
    hide Inv, Step, IsQueueStep, Advances;
    if a.Put? || a.StartPut? {
      if s.putState == Buffer || s.putState == Waiter {
        ServedPutAdvances(s, a);
      } else {
        WaitingPutAdvances(s, a);
      }
      AdvancesIsQueueStep(s, a, Step(s, a));
    } else if a.Get? || a.StartGet? {
      if s.getState == Buffer || s.getState == Waiter {
        ServedGetAdvances(s, a);
      } else {
        WaitingGetAdvances(s, a);
      }
      AdvancesIsQueueStep(s, a, Step(s, a));
    } else if a.Close? {
      CloseAdvances(s);
      AdvancesIsQueueStep(s, a, Step(s, a));
    } else {
      CancelIsQueueStep(s, a);
    }
  }

  /** What all calls of a run up to the n-th delivered. */
  function DeliveredBy<V>(states: seq<State<V>>, actions: seq<Action<V>>, n: nat): seq<V>
    requires n <= |states| && n <= |actions|
    requires forall i | 0 <= i < n :: Defined(states[i], actions[i])
  {
    if n == 0 then []
    else DeliveredBy(states, actions, n - 1) + Delivered(Step(states[n - 1], actions[n - 1]))
  }

  /** What all calls of a run accepted, without what cancels withdrew. */
  function Surviving<V>(states: seq<State<V>>, actions: seq<Action<V>>, n: nat): seq<V>
    requires n <= |states| && n <= |actions|
    requires forall i | 0 <= i < n :: Defined(states[i], actions[i])
  {
    if n == 0 then []
    else
      var o := Step(states[n - 1], actions[n - 1]);
      Cut(Surviving(states, actions, n - 1) + Accepted(actions[n - 1], o), Withdrawn(o.completions))
  }

  /** A queue step is one after whatever was delivered before. */
  lemma CutLater<V>(before: seq<V>, pending: seq<V>, more: seq<V>, n: nat, delivered: seq<V>, left: seq<V>)
    requires n <= |pending| && delivered + left == Cut(pending + more, n)
    ensures before + delivered + left == Cut(before + pending + more, n)
  {
    assert before + pending + more == before + (pending + more);
    assert before + delivered + left == before + (delivered + left);
  }

  /** In every run, what was delivered, followed by what the buffer and the
      waiting putters hold, is what was accepted and not withdrawn, in order;
      and what is withdrawn was brought by the putters waiting at the time. */
  lemma {:induction false} ChannelIsQueue<V(!new)>(states: seq<State<V>>, actions: seq<Action<V>>, capacity: nat, n: nat)
    requires IsRun(states, actions, capacity) && n <= |actions|
    ensures DeliveredBy(states, actions, n) + Pending(states[n]) == Surviving(states, actions, n)
    ensures forall i | 0 <= i < n :: Withdrawn(Step(states[i], actions[i]).completions) <= |Values(states[i].waiters)|
  {
    if n > 0 {
      hide Step, Inv, Values, Accepted, Delivered, Withdrawn, Cut;
      ChannelIsQueue(states, actions, capacity, n - 1);
      RunKeepsInv(states, actions, capacity, n - 1);
      var s, o := states[n - 1], Step(states[n - 1], actions[n - 1]);
      StepIsQueueStep(s, actions[n - 1]);
      assert |Values(s.waiters)| <= |Pending(s)|;
      CutLater(DeliveredBy(states, actions, n - 1), Pending(s), Accepted(actions[n - 1], o), Withdrawn(o.completions),
               Delivered(o), Pending(states[n]));
    }
  }

  // ---- Operations ----

  function GetIds<V>(ops: seq<Op<V>>): seq<OpId> {
    if ops == [] then [] else GetId(ops[0]) + GetIds(ops[1..])
  }

  function GetId<V>(op: Op<V>): seq<OpId> {
    if op.GetOp? then [op.id] else []
  }

  function PutIds<V>(ops: seq<Op<V>>): seq<OpId> {
    if ops == [] then [] else PutId(ops[0]) + PutIds(ops[1..])
  }

  function PutId<V>(op: Op<V>): seq<OpId> {
    if op.PutOp? then [op.id] else []
  }

  function GetsDone<V>(done: seq<Completion<V>>): seq<OpId> {
    if done == [] then [] else GetEnded(done[0]) + GetsDone(done[1..])
  }

  function GetEnded<V>(done: Completion<V>): seq<OpId> {
    if done.GetDone? then [done.id] else []
  }

  function PutsDone<V>(done: seq<Completion<V>>): seq<OpId> {
    if done == [] then [] else PutEnded(done[0]) + PutsDone(done[1..])
  }

  function PutEnded<V>(done: Completion<V>): seq<OpId> {
    if done.PutDone? then [done.id] else []
  }

  lemma {:induction false} IdsAppend<V>(ops: seq<Op<V>>, op: Op<V>)
    ensures GetIds(ops + [op]) == GetIds(ops) + GetId(op)
    ensures PutIds(ops + [op]) == PutIds(ops) + PutId(op)
  {
    hide GetId, PutId;
    if ops == [] {
      assert ops + [op] == [op];
    } else {
      assert (ops + [op])[1..] == ops[1..] + [op];
      IdsAppend(ops[1..], op);
    }
  }

  lemma {:induction false} DoneAppend<V>(done: seq<Completion<V>>, last: Completion<V>)
    ensures GetsDone(done + [last]) == GetsDone(done) + GetEnded(last)
    ensures PutsDone(done + [last]) == PutsDone(done) + PutEnded(last)
  {
    hide GetEnded, PutEnded;
    if done == [] {
      assert done + [last] == [last];
    } else {
      assert (done + [last])[1..] == done[1..] + [last];
      DoneAppend(done[1..], last);
    }
  }

  lemma {:induction false} IdsFinished<V>(ops: seq<Op<V>>, error: Error)
    ensures GetsDone(FinishAll(ops, error)) == GetIds(ops) && PutsDone(FinishAll(ops, error)) == PutIds(ops)
  {
    if ops != [] {
      assert FinishAll(ops, error)[1..] == FinishAll(ops[1..], error);
      IdsFinished(ops[1..], error);
    }
  }

  lemma {:induction false} OneKindOnly<V>(ops: seq<Op<V>>)
    ensures AllPuts(ops) ==> GetIds(ops) == []
    ensures AllGets(ops) ==> PutIds(ops) == []
  {
    if ops != [] {
      OneKindOnly(ops[1..]);
    }
  }

  function StartedGets<V>(a: Action<V>): seq<OpId> {
    if a.StartGet? then [a.id] else []
  }

  /** A put that finds the channel closed is completed at once, ahead of the
      putters that wait. */
  function StartedPuts<V>(a: Action<V>, o: Outcome<V>): seq<OpId> {
    if a.StartPut? && !Refused(o) then [a.id] else []
  }

  function EndedPuts<V>(a: Action<V>, o: Outcome<V>): seq<OpId> {
    if a.StartPut? && Refused(o) then [] else PutsDone(o.completions)
  }

  /** The completions are of the first operations that waited, and only of one
      kind. */
  ghost predicate Completes<V>(before: seq<Op<V>>, done: seq<Completion<V>>, after: seq<Op<V>>) {
    GetsDone(done) + GetIds(after) == GetIds(before) && PutsDone(done) + PutIds(after) == PutIds(before)
  }

  lemma AcceptCompletes<V>(s: State<V>, v: V)
    requires Inv(s) && (s.putState == Buffer || s.putState == Waiter)
    ensures Completes(s.waiters, Accept(s, v).completions, Accept(s, v).next.waiters) && PutIds(s.waiters) == []
  {
    OneKindOnly(s.waiters);
    if s.putState == Waiter {
      assert GetIds(s.waiters) == [s.waiters[0].id] + GetIds(s.waiters[1..]);
      OneDone(GetDone(s.waiters[0].id, Success, Some(v)));
    }
  }

  lemma TakeCompletes<V>(s: State<V>)
    requires Inv(s) && (s.getState == Buffer || s.getState == Waiter) && Takeable(s)
    ensures Completes(s.waiters, Take(s).completions, Take(s).next.waiters) && GetIds(s.waiters) == []
  {
    OneKindOnly(s.waiters);
    if s.waiters != [] {
      assert PutIds(s.waiters) == [s.waiters[0].id] + PutIds(s.waiters[1..]);
      OneDone<V>(PutDone(s.waiters[0].id, Success));
    }
  }

  ghost predicate CompletesInOrder<V>(s: State<V>, a: Action<V>, o: Outcome<V>) {
    && GetsDone(o.completions) + GetIds(o.next.waiters) == GetIds(s.waiters) + StartedGets(a)
    && EndedPuts(a, o) + PutIds(o.next.waiters) == PutIds(s.waiters) + StartedPuts(a, o)
  }

  lemma PutCompletesInOrder<V>(s: State<V>, a: Action<V>)
    requires Inv(s) && Defined(s, a) && (a.Put? || a.StartPut?)
    ensures CompletesInOrder(s, a, Step(s, a))
  {
    hide Inv, Accept, GetIds, PutIds, GetsDone, PutsDone;
    if s.putState == Buffer || s.putState == Waiter {
      AcceptCompletes(s, a.value);
      AcceptSucceeds(s, a.value);
      if a.StartPut? {
        DoneAppend(Accept(s, a.value).completions, PutDone(a.id, Success));
      }
    } else if a.StartPut? {
      IdsAppend(s.waiters, PutOp(a.id, a.value));
      OneDone<V>(PutDone(a.id, BrokenPipe));
      NoneDone<V>();
    } else {
      NoneDone<V>();
    }
  }

  lemma NoneDone<V>()
    ensures GetsDone<V>([]) == [] && PutsDone<V>([]) == [] && GetIds<V>([]) == [] && PutIds<V>([]) == []
  {
  }

  /** A get that is served when it starts completes after the waiting putter. */
  lemma StartedGetCompletes<V>(s: State<V>, a: Action<V>, o: Outcome<V>)
    requires a.StartGet? && GetIds(s.waiters) == [] && Completes(s.waiters, o.completions, o.next.waiters)
    ensures CompletesInOrder(s, a, o.(value := None, completions := o.completions + [GetDone(a.id, Success, o.value)]))
  {
    hide GetIds, PutIds, GetsDone, PutsDone;
    DoneAppend(o.completions, GetDone(a.id, Success, o.value));
  }

  lemma PlainGetCompletes<V>(s: State<V>, a: Action<V>, o: Outcome<V>)
    requires a.Get? && Completes(s.waiters, o.completions, o.next.waiters)
    ensures CompletesInOrder(s, a, o)
  {
    hide GetIds, PutIds, GetsDone, PutsDone;
  }

  lemma ServedGetCompletesInOrder<V>(s: State<V>, a: Action<V>)
    requires Inv(s) && Defined(s, a) && (a.Get? || a.StartGet?) && (s.getState == Buffer || s.getState == Waiter)
    ensures CompletesInOrder(s, a, Step(s, a))
  {
    TakeCompletes(s);
    hide Inv, Take, GetIds, PutIds, GetsDone, PutsDone, CompletesInOrder;
    var o := Take(s);
    if a.StartGet? {
      StartedGetCompletes(s, a, o);
    } else {
      PlainGetCompletes(s, a, o);
    }
  }

  lemma WaitingGetCompletesInOrder<V>(s: State<V>, a: Action<V>)
    requires Inv(s) && Defined(s, a) && (a.Get? || a.StartGet?) && (s.getState == Block || s.getState == Closed)
    ensures CompletesInOrder(s, a, Step(s, a))
  {
    NoneDone<V>();
    assert s.getState == Closed ==> s.waiters == [];
    hide Inv, GetIds, PutIds, GetsDone, PutsDone;
    if a.StartGet? {
      if s.getState == Block {
        IdsAppend(s.waiters, GetOp(a.id));
      } else {
        OneDone<V>(GetDone(a.id, BrokenPipe, None));
      }
    }
  }

  /** Started operations complete first come, first served, each of them once. */
  lemma StepCompletesInOrder<V>(s: State<V>, a: Action<V>)
    requires Inv(s) && Allowed(s, a)
    ensures CompletesInOrder(s, a, Step(s, a))
  {
    if a.Put? || a.StartPut? {
      PutCompletesInOrder(s, a);
    } else if a.Get? || a.StartGet? {
      if s.getState == Buffer || s.getState == Waiter {
        ServedGetCompletesInOrder(s, a);
      } else {
        WaitingGetCompletesInOrder(s, a);
      }
    } else {
      IdsFinished(s.waiters, BrokenPipe);
      IdsFinished(s.waiters, OperationCanceled);
    }
  }

  function GetsStartedBy<V>(actions: seq<Action<V>>, n: nat): seq<OpId>
    requires n <= |actions|
  {
    if n == 0 then [] else GetsStartedBy(actions, n - 1) + StartedGets(actions[n - 1])
  }

  function GetsDoneBy<V>(states: seq<State<V>>, actions: seq<Action<V>>, n: nat): seq<OpId>
    requires n <= |states| && n <= |actions|
    requires forall i | 0 <= i < n :: Defined(states[i], actions[i])
  {
    if n == 0 then []
    else GetsDoneBy(states, actions, n - 1) + GetsDone(Step(states[n - 1], actions[n - 1]).completions)
  }

  function PutsStartedBy<V>(states: seq<State<V>>, actions: seq<Action<V>>, n: nat): seq<OpId>
    requires n <= |states| && n <= |actions|
    requires forall i | 0 <= i < n :: Defined(states[i], actions[i])
  {
    if n == 0 then []
    else PutsStartedBy(states, actions, n - 1) + StartedPuts(actions[n - 1], Step(states[n - 1], actions[n - 1]))
  }

  function PutsEndedBy<V>(states: seq<State<V>>, actions: seq<Action<V>>, n: nat): seq<OpId>
    requires n <= |states| && n <= |actions|
    requires forall i | 0 <= i < n :: Defined(states[i], actions[i])
  {
    if n == 0 then []
    else PutsEndedBy(states, actions, n - 1) + EndedPuts(actions[n - 1], Step(states[n - 1], actions[n - 1]))
  }

  /** In every run, the gets started are the gets completed followed by the gets
      that wait, in order; and so are the puts that were not refused. */
  lemma {:induction false} CompletedInOrderOnce<V(!new)>(states: seq<State<V>>, actions: seq<Action<V>>, capacity: nat, n: nat)
    requires IsRun(states, actions, capacity) && n <= |actions|
    ensures GetsStartedBy(actions, n) == GetsDoneBy(states, actions, n) + GetIds(states[n].waiters)
    ensures PutsStartedBy(states, actions, n) == PutsEndedBy(states, actions, n) + PutIds(states[n].waiters)
  {
    if n > 0 {
      hide Step, Inv, StartedGets, StartedPuts, GetsDone, EndedPuts, GetIds, PutIds;
      CompletedInOrderOnce(states, actions, capacity, n - 1);
      RunKeepsInv(states, actions, capacity, n - 1);
      var s, a, o := states[n - 1], actions[n - 1], Step(states[n - 1], actions[n - 1]);
      StepCompletesInOrder(s, a);
      FifoStep(GetsStartedBy(actions, n - 1), GetsDoneBy(states, actions, n - 1), GetIds(s.waiters),
               StartedGets(a), GetsDone(o.completions), GetIds(o.next.waiters));
      FifoStep(PutsStartedBy(states, actions, n - 1), PutsEndedBy(states, actions, n - 1), PutIds(s.waiters),
               StartedPuts(a, o), EndedPuts(a, o), PutIds(o.next.waiters));
    }
  }

  // ---- Close, then drain ----

  predicate Ends<V>(a: Action<V>) {
    a.Cancel? || a.Reset?
  }

  ghost predicate Closing<V>(s: State<V>) {
    Inv(s) && s.putState == Closed && s.getState != Block
  }

  /** A close keeps every value, and completes every waiting getter, in order,
      with a broken pipe. */
  lemma CloseKeepsValues<V>(s: State<V>)
    requires Inv(s)
    ensures var o := Step(s, Close);
            && Closing(o.next) && Pending(o.next) == Pending(s)
            && GetsDone(o.completions) == GetIds(s.waiters) && GetIds(o.next.waiters) == []
            && (forall done | done in o.completions :: done.GetDone? && done.error == BrokenPipe && done.value == None)
  {
    if s.getState == Block {
      CloseEndsGetters(s);
    } else {
      OneKindOnly(s.waiters);
      NoneDone<V>();
      hide GetIds, PutIds, GetsDone, PutsDone, Pending;
    }
  }

  lemma CloseEndsGetters<V>(s: State<V>)
    requires Inv(s) && s.getState == Block
    ensures var o := Step(s, Close);
            && Closing(o.next) && Pending(o.next) == Pending(s) == []
            && GetsDone(o.completions) == GetIds(s.waiters) && GetIds(o.next.waiters) == []
            && (forall done | done in o.completions :: done.GetDone? && done.error == BrokenPipe && done.value == None)
  {
    NoneDone<V>();
    IdsFinished(s.waiters, BrokenPipe);
    NoValuesOfGets(s.waiters);
    assert Values<V>([]) == [];
    hide GetIds, PutIds, GetsDone, PutsDone, Values;
  }

  /** The result of a get, if the action is one that completes. */
  function GetResult<V>(a: Action<V>, o: Outcome<V>): seq<(Error, Option<V>)> {
    match a
    case Get => [(o.error, o.value)]
    case StartGet(_) =>
      if o.completions == [] then [(OperationWouldBlock, None)]
      else
        var done := o.completions[|o.completions| - 1];
        [(done.error, if done.GetDone? then done.value else None)]
    case _ => []
  }

  /** How gets end on a closed channel that still holds these values. */
  function Expected<V>(pending: seq<V>, n: nat): (r: seq<(Error, Option<V>)>)
    ensures |r| == n
  {
    seq(n, i requires 0 <= i < n => if i < |pending| then (Success, Some(pending[i])) else (BrokenPipe, None))
  }

  function Skip<V>(q: seq<V>, n: nat): seq<V> {
    if n <= |q| then q[n..] else []
  }

  /** On a closed channel a get takes the oldest value, or finds the pipe broken
      when there is none. */
  lemma TakeOldest<V>(s: State<V>)
    requires Closing(s) && s.getState != Closed
    ensures var o := Take(s); Pending(s) != [] && o.value == Some(Pending(s)[0]) && Pending(o.next) == Pending(s)[1..]
  {
    if s.getState == Waiter {
      assert s.buffer == [] && Pending(s) == Values(s.waiters);
    } else if s.waiters != [] {
      assert Values(s.waiters) == [s.waiters[0].value] + Values(s.waiters[1..]);
    }
  }

  lemma DrainStep<V>(s: State<V>, a: Action<V>)
    requires Closing(s) && !Ends(a) && Defined(s, a)
    ensures var o := Step(s, a);
            && Closing(o.next)
            && GetResult(a, o) == Expected(Pending(s), |GetResult(a, o)|)
            && Pending(o.next) == Skip(Pending(s), |GetResult(a, o)|)
            && (a.Put? ==> o.error == BrokenPipe && o.next == s)
            && (a.StartPut? ==> o.completions == [PutDone(a.id, BrokenPipe)] && o.next == s)
  {
    StepKeepsInv(s, a);
    if (a.Get? || a.StartGet?) && s.getState != Closed {
      TakeOldest(s);
      hide Pending, Inv;
    }
  }

  function GetResults<V>(states: seq<State<V>>, actions: seq<Action<V>>, from: nat, n: nat): seq<(Error, Option<V>)>
    requires from <= n <= |states| && n <= |actions|
    requires forall i | 0 <= i < n :: Defined(states[i], actions[i])
  {
    if n == from then []
    else GetResults(states, actions, from, n - 1) + GetResult(actions[n - 1], Step(states[n - 1], actions[n - 1]))
  }

  lemma DrainedFurther<V>(pending: seq<V>, results: seq<(Error, Option<V>)>, left: seq<V>, more: seq<(Error, Option<V>)>)
    requires results == Expected(pending, |results|) && left == Skip(pending, |results|)
    requires more == Expected(left, |more|)
    ensures results + more == Expected(pending, |results + more|)
    ensures Skip(left, |more|) == Skip(pending, |results + more|)
  {
  }

  lemma NothingDrained<V>(pending: seq<V>)
    ensures Expected(pending, 0) == [] && Skip(pending, 0) == pending
  {
  }

  lemma {:induction false} ClosingLasts<V(!new)>(states: seq<State<V>>, actions: seq<Action<V>>, capacity: nat, close: nat, n: nat)
    requires IsRun(states, actions, capacity) && close < n <= |actions| && actions[close] == Close
    requires forall i | close < i < n :: !Ends(actions[i])
    ensures Closing(states[n])
  {
    if n == close + 1 {
      RunKeepsInv(states, actions, capacity, close);
      CloseKeepsValues(states[close]);
    } else {
      hide Step, Closing, Pending, Expected, Skip, GetResult, Inv;
      ClosingLasts(states, actions, capacity, close, n - 1);
      DrainStep(states[n - 1], actions[n - 1]);
    }
  }

  /** After a close, and until a cancel or a reset, gets deliver every value that
      was in the buffer or with a waiting putter when the channel was closed, in
      order, and then fail with a broken pipe for ever. */
  lemma {:induction false} CloseThenDrain<V(!new)>(states: seq<State<V>>, actions: seq<Action<V>>, capacity: nat, close: nat, n: nat)
    requires IsRun(states, actions, capacity) && close < n <= |actions| && actions[close] == Close
    requires forall i | close < i < n :: !Ends(actions[i])
    ensures var results := GetResults(states, actions, close + 1, n);
            && results == Expected(Pending(states[close]), |results|)
            && Pending(states[n]) == Skip(Pending(states[close]), |results|)
  {
    hide Step, Pending, Expected, Skip, GetResult, Closing, Inv;
    if n == close + 1 {
      RunKeepsInv(states, actions, capacity, close);
      CloseKeepsValues(states[close]);
      NothingDrained(Pending(states[close]));
    } else {
      ClosingLasts(states, actions, capacity, close, n - 1);
      CloseThenDrain(states, actions, capacity, close, n - 1);
      var s, a := states[n - 1], actions[n - 1];
      assert Allowed(s, a) && !Ends(a) && states[n] == Step(s, a).next;
      hide IsRun, Allowed;
      DrainStep(s, a);
      var results, more := GetResults(states, actions, close + 1, n - 1), GetResult(a, Step(s, a));
      assert GetResults(states, actions, close + 1, n) == results + more;
      DrainedFurther(Pending(states[close]), results, Pending(s), more);
    }
  }

  /** After a close, and until a cancel or a reset, every put fails at once with a
      broken pipe and changes nothing, and no get is left to wait. */
  lemma ClosedNeverAccepts<V(!new)>(states: seq<State<V>>, actions: seq<Action<V>>, capacity: nat, close: nat, n: nat)
    requires IsRun(states, actions, capacity) && close < n < |actions| && actions[close] == Close
    requires forall i | close < i <= n :: !Ends(actions[i])
    ensures var a, o := actions[n], Step(states[n], actions[n]);
            && (a.Put? ==> o.error == BrokenPipe && states[n + 1] == states[n])
            && (a.StartPut? ==> o.completions == [PutDone(a.id, BrokenPipe)] && states[n + 1] == states[n])
            && GetIds(states[n].waiters) == []
  {
    ClosingLasts(states, actions, capacity, close, n);
    DrainStep(states[n], actions[n]);
    OneKindOnly(states[n].waiters);
  }
}
