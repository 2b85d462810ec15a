/** A channel of values: two state variables, one for each end, encode how full
    the buffer is and who is waiting. The step function follows the switch
    statements of the code; the theorems say what those two variables mean, that
    a channel is a queue, and that nothing is lost or completed twice. */
module Channel {
  import opened Basics

  type OpId = nat

  datatype Error = Success | OperationWouldBlock | OperationCanceled | BrokenPipe

  /** What an operation at one end of the channel would do now. */
  datatype End = Buffer | Waiter | Block | Closed

  datatype Op<V> = PutOp(id: OpId, value: V) | GetOp(id: OpId)

  datatype State<V> = State(capacity: nat, getState: End, putState: End, buffer: seq<V>, waiters: seq<Op<V>>)

  /** The call of a waiting operation's handler; a get without a value stands for
      the default value that the code passes. */
  datatype Completion<V> = PutDone(id: OpId, error: Error) | GetDone(id: OpId, error: Error, value: Option<V>)

  datatype Action<V> =
    | Put(value: V)
    | Get
    | StartPut(id: OpId, value: V)
    | StartGet(id: OpId)
    | Close
    | Cancel
    | Reset

  /** What a call returns, and the handlers it completes, in order. */
  datatype Outcome<V> = Outcome(next: State<V>, error: Error, value: Option<V>, completions: seq<Completion<V>>)

  /** How an open channel without getters waiting treats a put. */
  function OpenEnd(capacity: nat): End {
    if capacity != 0 then Buffer else Block
  }

  function Start<V>(capacity: nat): State<V> {
    State(capacity, Block, OpenEnd(capacity), [], [])
  }

  /** The values that the channel holds, oldest first: the buffer, then what the
      waiting putters bring. */
  function Pending<V>(s: State<V>): seq<V> {
    s.buffer + Values(s.waiters)
  }

  function Values<V>(ops: seq<Op<V>>): seq<V> {
    if ops == [] then [] else ValueOf(ops[0]) + Values(ops[1..])
  }

  function ValueOf<V>(op: Op<V>): seq<V> {
    if op.PutOp? then [op.value] else []
  }

  function Finish<V>(op: Op<V>, error: Error): Completion<V> {
    if op.PutOp? then PutDone(op.id, error) else GetDone(op.id, error, None)
  }

  function FinishAll<V>(ops: seq<Op<V>>, error: Error): seq<Completion<V>> {
    seq(|ops|, i requires 0 <= i < |ops| => Finish(ops[i], error))
  }

  // ---- One call ----

  /** The buffer and the queue of waiters hold what the branch taken looks for. */
  predicate Defined<V>(s: State<V>, a: Action<V>) {
    match a
    case Put(_) => s.putState == Waiter ==> s.waiters != [] && s.waiters[0].GetOp?
    case StartPut(_, _) => s.putState == Waiter ==> s.waiters != [] && s.waiters[0].GetOp?
    case Get => Takeable(s)
    case StartGet(_) => Takeable(s)
    case _ => true
  }

  predicate Takeable<V>(s: State<V>) {
    && (s.getState == Buffer ==> s.buffer != [] && (s.waiters != [] ==> s.waiters[0].PutOp?))
    && (s.getState == Waiter ==> s.waiters != [] && s.waiters[0].PutOp?)
  }

  /** A put that need not wait: the value goes to the first waiting getter or
      into the buffer. */
  function Accept<V>(s: State<V>, v: V): (o: Outcome<V>)
    requires (s.putState == Waiter && s.waiters != []) || s.putState == Buffer
  {
    if s.putState == Waiter then
      var rest := s.waiters[1..];
      Outcome(s.(waiters := rest, putState := if rest == [] then OpenEnd(s.capacity) else Waiter),
              Success, None, [GetDone(s.waiters[0].id, Success, Some(v))])
    else
      var full := |s.buffer| + 1 == s.capacity;
      Outcome(s.(buffer := s.buffer + [v], getState := Buffer, putState := if full then Block else Buffer), Success, None, [])
  }

  /** What the get end becomes when there is nothing left to get. */
  function Drained<V>(s: State<V>): End {
    if s.putState == Closed then Closed else Block
  }

  /** A get that need not wait: the oldest value, from the buffer or from the
      first waiting putter. */
  function Take<V>(s: State<V>): (o: Outcome<V>)
    requires s.getState == Buffer || s.getState == Waiter
    requires Takeable(s)
  {
    if s.getState == Buffer then
      if s.waiters != [] then
        Outcome(s.(buffer := (s.buffer + [s.waiters[0].value])[1..], waiters := s.waiters[1..]),
                Success, Some(s.buffer[0]), [PutDone(s.waiters[0].id, Success)])
      else
        Outcome(s.(buffer := s.buffer[1..],
                   getState := if |s.buffer| == 1 then Drained(s) else Buffer,
                   putState := if s.putState == Closed then Closed else Buffer),
                Success, Some(s.buffer[0]), [])
    else
      Outcome(s.(waiters := s.waiters[1..], getState := if |s.waiters| == 1 then Drained(s) else Waiter),
              Success, Some(s.waiters[0].value), [PutDone(s.waiters[0].id, Success)])
  }

  function Cancelled<V>(s: State<V>): Outcome<V> {
    Outcome(s.(waiters := [],
               getState := if s.getState == Waiter then Block else s.getState,
               putState := if s.putState == Waiter then Block else s.putState),
            Success, None, FinishAll(s.waiters, OperationCanceled))
  }

  function Step<V>(s: State<V>, a: Action<V>): (o: Outcome<V>)
    requires Defined(s, a)
  {
    match a
    case Put(v) =>
      (match s.putState
       case Block => Outcome(s, OperationWouldBlock, None, [])
       case Closed => Outcome(s, BrokenPipe, None, [])
       case _ => Accept(s, v))
    case Get =>
      (match s.getState
       case Block => Outcome(s, OperationWouldBlock, None, [])
       case Closed => Outcome(s, BrokenPipe, None, [])
       case _ => Take(s))
    case StartPut(id, v) =>
      (match s.putState
       case Block =>
         Outcome(s.(waiters := s.waiters + [PutOp(id, v)], getState := if s.getState == Block then Waiter else s.getState),
                 Success, None, [])
       case Closed => Outcome(s, Success, None, [PutDone(id, BrokenPipe)])
       case _ => var o := Accept(s, v); o.(completions := o.completions + [PutDone(id, Success)]))
    case StartGet(id) =>
      (match s.getState
       case Block =>
         Outcome(s.(waiters := s.waiters + [GetOp(id)], putState := if s.putState == Closed then Closed else Waiter),
                 Success, None, [])
       case Closed => Outcome(s, Success, None, [GetDone(id, BrokenPipe, None)])
       case _ => var o := Take(s); o.(value := None, completions := o.completions + [GetDone(id, Success, o.value)]))
    case Close =>
      if s.getState == Block then
        Outcome(s.(putState := Closed, getState := Closed, waiters := []), Success, None, FinishAll(s.waiters, BrokenPipe))
      else
        Outcome(s.(putState := Closed), Success, None, [])
    case Cancel => Cancelled(s)
    case Reset =>
      var o := Cancelled(s);
      o.(next := o.next.(
           buffer := [],
           getState := if o.next.getState == Closed then Block else o.next.getState,
           putState := if o.next.putState == Closed then OpenEnd(s.capacity) else o.next.putState))
  }

  // ---- What the two state variables mean ----

  predicate AllPuts<V>(ops: seq<Op<V>>) {
    forall i | 0 <= i < |ops| :: ops[i].PutOp?
  }

  predicate AllGets<V>(ops: seq<Op<V>>) {
    forall i | 0 <= i < |ops| :: ops[i].GetOp?
  }

  /** What the buffer and the queue of waiters may hold, for each pair of states. */
  predicate Inv<V>(s: State<V>) {
    match s.getState
    case Buffer =>
      && 0 < |s.buffer| <= s.capacity && AllPuts(s.waiters) && s.putState != Waiter
      && (s.putState == Buffer ==> |s.buffer| < s.capacity)
      && (s.putState == Block ==> |s.buffer| == s.capacity)
      && (s.waiters != [] ==> |s.buffer| == s.capacity)
    case Waiter =>
      && s.buffer == [] && s.waiters != [] && AllPuts(s.waiters) && (s.putState == Block || s.putState == Closed)
    case Block =>
      && s.buffer == [] && AllGets(s.waiters)
      && (s.putState == Buffer ==> 0 < s.capacity && s.waiters == [])
      && (s.putState == Block ==> s.waiters == [])
      && (s.putState == Waiter ==> s.waiters != [])
    case Closed =>
      && s.putState == Closed && s.buffer == [] && s.waiters == []
  }

  /** Calls that the theorems cover: everything, except a reset while the buffer
      holds values. */
  predicate Allowed<V>(s: State<V>, a: Action<V>) {
    Defined(s, a) && (a.Reset? ==> s.getState != Buffer)
  }

  /** In a state that a run can reach, every call finds what it looks for. */
  lemma InvMeansDefined<V>(s: State<V>, a: Action<V>)
    requires Inv(s)
    ensures Defined(s, a)
  {
  }

  lemma AcceptKeepsInv<V>(s: State<V>, v: V)
    requires Inv(s) && (s.putState == Buffer || s.putState == Waiter)
    ensures Inv(Accept(s, v).next)
  {
  }

  lemma TakeKeepsInv<V>(s: State<V>)
    requires Inv(s) && (s.getState == Buffer || s.getState == Waiter) && Takeable(s)
    ensures Inv(Take(s).next)
  {
  }

  lemma StepKeepsInv<V>(s: State<V>, a: Action<V>)
    requires Inv(s) && Allowed(s, a)
    ensures Inv(Step(s, a).next) && Step(s, a).next.capacity == s.capacity
  {
    if (a.Put? || a.StartPut?) && (s.putState == Buffer || s.putState == Waiter) {
      AcceptKeepsInv(s, a.value);
      hide Inv;
    } else if (a.Get? || a.StartGet?) && (s.getState == Buffer || s.getState == Waiter) {
      TakeKeepsInv(s);
      hide Inv;
    }
  }

  /** A reset leaves a state in which every call is defined exactly if the buffer
      was not in use: it empties the buffer but not the state variable. */
  lemma ResetKeepsInvExactlyWithoutBuffer<V>(s: State<V>)
    requires Inv(s)
    ensures Inv(Step(s, Reset).next) <==> s.getState != Buffer
    ensures s.getState == Buffer ==> !Defined(Step(s, Reset).next, Get)
  {
  }

  // ---- Whole runs ----

  ghost predicate IsRun<V(!new)>(states: seq<State<V>>, actions: seq<Action<V>>, capacity: nat) {
    && |states| == |actions| + 1 && states[0] == Start(capacity)
    && forall n | 0 <= n < |actions| ::
         && Allowed(states[n], actions[n]) && states[n + 1] == Step(states[n], actions[n]).next
  }

  lemma {:induction false} RunKeepsInv<V(!new)>(states: seq<State<V>>, actions: seq<Action<V>>, capacity: nat, n: nat)
    requires IsRun(states, actions, capacity) && n < |states|
    ensures Inv(states[n]) && states[n].capacity == capacity
  {
    if n == 0 {
    } else {
      RunKeepsInv(states, actions, capacity, n - 1);
      StepKeepsInv(states[n - 1], actions[n - 1]);
    }
  }

  /** In every run the buffer never exceeds the capacity, putters and getters
      never wait together, and nobody waits for a value that is there. */
  lemma NobodyWaitsInVain<V(!new)>(states: seq<State<V>>, actions: seq<Action<V>>, capacity: nat, n: nat)
    requires IsRun(states, actions, capacity) && n < |states|
    ensures var s := states[n];
            && |s.buffer| <= capacity
            && (AllPuts(s.waiters) || AllGets(s.waiters))
            && (s.waiters != [] && s.waiters[0].GetOp? ==> Pending(s) == [])
            && (Pending(s) != [] <==> s.getState == Buffer || s.getState == Waiter)
  {
    RunKeepsInv(states, actions, capacity, n);
    var s := states[n];
    if AllGets(s.waiters) {
      NoValuesOfGets(s.waiters);
    }
  }

  lemma {:induction false} NoValuesOfGets<V>(ops: seq<Op<V>>)
    requires AllGets(ops)
    ensures Values(ops) == []
  {
    if ops != [] {
      NoValuesOfGets(ops[1..]);
    }
  }

  // ---- When a put has to wait ----

  /** A put is refused or made to wait only when the buffer is full, and no
      getter waits on a channel that is closed. */
  predicate Tight<V>(s: State<V>) {
    && (s.putState == Block ==> |s.buffer| == s.capacity)
    && !(s.getState == Block && s.putState == Closed)
  }

  lemma StepStaysTight<V>(s: State<V>, a: Action<V>)
    requires Inv(s) && Tight(s) && Defined(s, a) && !a.Cancel? && !a.Reset?
    ensures Tight(Step(s, a).next)
  {
  }

  lemma BlockedMeansFull<V>(s: State<V>)
    requires Inv(s) && Tight(s) && s.putState == Block
    ensures |s.buffer| == s.capacity && AllPuts(s.waiters)
  {
  }

  lemma {:induction false} RunStaysTight<V(!new)>(states: seq<State<V>>, actions: seq<Action<V>>, capacity: nat, n: nat)
    requires IsRun(states, actions, capacity) && n < |states|
    requires forall i | 0 <= i < n :: !actions[i].Cancel? && !actions[i].Reset?
    ensures Tight(states[n])
    ensures states[n].putState == Block ==> |states[n].buffer| == capacity && AllPuts(states[n].waiters)
  {
    RunKeepsInv(states, actions, capacity, n);
    if n > 0 {
      hide Inv, Step, Defined, AllPuts;
      RunStaysTight(states, actions, capacity, n - 1);
      RunKeepsInv(states, actions, capacity, n - 1);
      StepStaysTight(states[n - 1], actions[n - 1]);
      if states[n].putState == Block {
        BlockedMeansFull(states[n]);
      }
    }
  }

  /** A cancel breaks this exactly when getters wait on a buffered channel, or
      putters on a closed one. */
  lemma CancelStaysTightExactlyWhen<V>(s: State<V>)
    requires Inv(s) && Tight(s)
    ensures Tight(Step(s, Cancel).next)
            <==> !(s.putState == Waiter && s.capacity > 0) && !(s.getState == Waiter && s.putState == Closed)
  {
  }

  /** On an empty channel with room, a put blocks once a get was cancelled; and
      on a closed, empty channel a get waits once a put was cancelled. */
  lemma PutsBlockAfterCancel<V(!new)>(v: V, capacity: nat)
      returns (states: seq<State<V>>, actions: seq<Action<V>>, closing: seq<State<V>>, closingActions: seq<Action<V>>)
    requires capacity > 0
    ensures IsRun(states, actions, capacity) && |actions| == 2
    ensures states[2] == State(capacity, Block, Block, [], []) && Step(states[2], Put(v)).error == OperationWouldBlock
    ensures IsRun(closing, closingActions, 0) && |closingActions| == 3 && Close in closingActions
    ensures closing[3] == State(0, Block, Closed, [], [])
    ensures Step(closing[3], StartGet(1)).completions == [] && Step(closing[3], Get).error == OperationWouldBlock
  {
    var s0: State<V> := Start(capacity);
    var s1 := Step(s0, StartGet(0)).next;
    states, actions := [s0, s1, Step(s1, Cancel).next], [StartGet(0), Cancel];
    var c0: State<V> := Start(0);
    var c1 := Step(c0, StartPut(0, v)).next;
    var c2 := Step(c1, Close).next;
    closing, closingActions := [c0, c1, c2, Step(c2, Cancel).next], [StartPut(0, v), Close, Cancel];
  }

  /** A reset that finds the buffer not in use makes the channel as good as new
      exactly if it is unbuffered, or puts are neither blocked nor met by waiting
      getters; otherwise puts would block on the empty channel it leaves. */
  lemma ResetRestoresStartExactlyWhen<V>(s: State<V>)
    requires Inv(s) && s.getState != Buffer
    ensures var restores := s.capacity == 0 || s.putState == Buffer || s.putState == Closed;
            && (Step(s, Reset).next == Start(s.capacity) <==> restores)
            && (Tight(Step(s, Reset).next) <==> restores)
            && (!restores ==> Step(s, Reset).next == State(s.capacity, Block, Block, [], []))
  {
  }

  /** As long as there was no cancel, only waiting getters make that difference. */
  lemma TightResetRestoresStartExactlyWhen<V>(s: State<V>)
    requires Inv(s) && Tight(s) && s.getState != Buffer
    ensures Step(s, Reset).next == Start(s.capacity) <==> !(s.putState == Waiter && s.capacity > 0)
    ensures Tight(Step(s, Reset).next) <==> !(s.putState == Waiter && s.capacity > 0)
  {
  }

  // ---- The invariant is exact ----

  ghost predicate Reachable<V(!new)>(s: State<V>) {
    exists states, actions :: IsRun(states, actions, s.capacity) && states[|actions|] == s
  }

  lemma Extend<V(!new)>(s: State<V>, a: Action<V>)
    requires Reachable(s) && Inv(s) && (a.Reset? ==> s.getState != Buffer) && Defined(s, a)
    ensures Reachable(Step(s, a).next)
  {
    var states, actions :| IsRun(states, actions, s.capacity) && states[|actions|] == s;
    StepKeepsInv(s, a);
    assert IsRun(states + [Step(s, a).next], actions + [a], s.capacity);
  }

  /** A state in which nothing is held and nobody waits, for each pair of end
      states that allows it. */
  lemma QuietReachable<V(!new)>(v: V, s: State<V>)
    requires Inv(s) && s.buffer == [] && s.waiters == []
    ensures Reachable(s)
  {
    var s0: State<V> := Start(s.capacity);
    assert IsRun([s0], [], s.capacity);
    assert Reachable(s0);
    var blocked := State(s.capacity, Block, Block, [], []);
    assert Reachable(blocked) by {
      Extend(s0, StartGet(0));
      Extend(Step(s0, StartGet(0)).next, Cancel);
    }
    if s.putState == Closed {
      if s.getState == Closed {
        Extend(s0, Close);
      } else {
        Extend(blocked, StartPut(0, v));
        var waiting := Step(blocked, StartPut(0, v)).next;
        Extend(waiting, Close);
        Extend(Step(waiting, Close).next, Cancel);
      }
    }
  }

  /** Every state that satisfies the invariant is reached by some run, so the
      invariant says all there is to say about the reachable states. */
  lemma {:induction false} InvMeansReachable<V(!new)>(v: V, s: State<V>)
    requires Inv(s)
    ensures Reachable(s)
    decreases |s.waiters|, |s.buffer|, s.putState == Closed, 1
  {
    if s.waiters != [] {
      LastArrivesLast(v, s);
    } else if s.buffer == [] {
      QuietReachable(v, s);
    } else if s.putState == Closed {
      var open := s.(putState := if |s.buffer| == s.capacity then Block else Buffer);
      InvMeansReachable(v, open);
      Extend(open, Close);
    } else {
      var last := |s.buffer| - 1;
      var before := State(s.capacity, if last == 0 then Block else Buffer, Buffer, s.buffer[..last], []);
      InvMeansReachable(v, before);
      Extend(before, Put(s.buffer[last]));
      assert s.buffer[..last] + [s.buffer[last]] == s.buffer;
      assert Step(before, Put(s.buffer[last])).next == s;
    }
  }

  /** The state before the operation that waits last was started. */
  function BeforeLast<V>(s: State<V>): State<V>
    requires s.waiters != []
  {
    var last := |s.waiters| - 1;
    if s.waiters[last].PutOp? then
      State(s.capacity, if last == 0 && s.getState == Waiter then Block else s.getState, Block, s.buffer, s.waiters[..last])
    else
      s.(waiters := s.waiters[..last], putState := if s.putState == Waiter && last == 0 then Block else s.putState)
  }

  lemma BeforeLastKeepsInv<V>(s: State<V>)
    requires Inv(s) && s.waiters != []
    ensures Inv(BeforeLast(s))
  {
  }

  lemma {:induction false} LastArrivesLast<V(!new)>(v: V, s: State<V>)
    requires Inv(s) && s.waiters != []
    ensures Reachable(s)
    decreases |s.waiters|, |s.buffer|, s.putState == Closed, 0
  {
    hide Reachable, Inv;
    BeforeLastKeepsInv(s);
    InvMeansReachable(v, BeforeLast(s));
    if s.waiters[|s.waiters| - 1].PutOp? {
      LastPutArrives(s);
    } else {
      LastGetArrives(s);
    }
  }

  /** Starting the last put leads to the state, or to the state before a close. */
  lemma LastPutStep<V>(s: State<V>)
    requires Inv(s) && s.waiters != [] && s.waiters[|s.waiters| - 1].PutOp?
    ensures var op, waiting := s.waiters[|s.waiters| - 1], s.(putState := Block);
            && Step(BeforeLast(s), StartPut(op.id, op.value)).next == waiting
            && (s.putState == Block || (s.putState == Closed && Step(waiting, Close).next == s))
  {
    var last := |s.waiters| - 1;
    assert s.waiters[..last] + [s.waiters[last]] == s.waiters;
  }

  lemma LastPutArrives<V(!new)>(s: State<V>)
    requires Inv(s) && s.waiters != [] && s.waiters[|s.waiters| - 1].PutOp?
    requires Inv(BeforeLast(s)) && Reachable(BeforeLast(s))
    ensures Reachable(s)
  {
    var op, waiting := s.waiters[|s.waiters| - 1], s.(putState := Block);
    LastPutStep(s);
    StepKeepsInv(BeforeLast(s), StartPut(op.id, op.value));
    hide Reachable, Inv, Step;
    Extend(BeforeLast(s), StartPut(op.id, op.value));
    if s.putState == Closed {
      Extend(waiting, Close);
    }
  }

  lemma LastGetArrives<V(!new)>(s: State<V>)
    requires Inv(s) && s.waiters != [] && s.waiters[|s.waiters| - 1].GetOp?
    requires Inv(BeforeLast(s)) && Reachable(BeforeLast(s))
    ensures Reachable(s)
  {
    var op, before := s.waiters[|s.waiters| - 1], BeforeLast(s);
    assert before.waiters + [op] == s.waiters;
    assert Step(before, StartGet(op.id)).next == s;
    hide Reachable;
    Extend(before, StartGet(op.id));
  }
}
