/** The two channel templates, field by field and branch by branch, against the
    step functions that the theorems are about. A method returns the handlers it
    completes, in order. */
module ChannelClasses {
  import opened Basics
  import opened Channel
  import VC = VoidChannel

  class ValueChannel<V> {
    const capacity: nat
    var getState: End
    var putState: End
    var waiters: seq<Op<V>>
    var buffer: seq<V>

    constructor (capacity: nat)
      ensures Valid() && View() == Start(capacity)
    {
      this.capacity := capacity;
      getState, waiters, buffer := Block, [], [];
      putState := if capacity != 0 then Buffer else Block;
    }

    function View(): State<V>
      reads this
    {
      State(capacity, getState, putState, buffer, waiters)
    }

    /** What the two state variables promise about buffer and waiters. */
    ghost predicate Valid()
      reads this
    {
      Inv(View())
    }

    ghost predicate Did(before: State<V>, a: Action<V>, error: Error, value: Option<V>, done: seq<Completion<V>>)
      reads this
    {
      Defined(before, a) && Step(before, a) == Outcome(View(), error, value, done)
    }

    method Put(v: V) returns (error: Error, done: seq<Completion<V>>)
      requires Valid()
      modifies this
      ensures Valid() && Did(old(View()), Action.Put(v), error, None, done)
    {
      InvMeansDefined(View(), Action.Put(v));
      StepKeepsInv(View(), Action.Put(v));
      done := [];
      match putState
      case Block =>
        error := OperationWouldBlock;
      case Buffer =>
        buffer := buffer + [v];
        getState := Buffer;
        if |buffer| == capacity {
          putState := Block;
        }
        error := Success;
      case Waiter =>
        var getter := waiters[0];
        waiters := waiters[1..];
        if waiters == [] {
          putState := if capacity != 0 then Buffer else Block;
        }
        error := Success;
        done := [GetDone(getter.id, Success, Some(v))];
      case Closed =>
        error := BrokenPipe;
    }

    method Get() returns (error: Error, value: Option<V>, done: seq<Completion<V>>)
      requires Valid()
      modifies this
      ensures Valid() && Did(old(View()), Action.Get, error, value, done)
    {
      InvMeansDefined(View(), Action.Get);
      StepKeepsInv(View(), Action.Get);
      value, done := None, [];
      match getState
      case Block =>
        error := OperationWouldBlock;
      case Buffer =>
        value := Some(buffer[0]);
        if waiters != [] {
          var putter := waiters[0];
          buffer := buffer + [putter.value];
          buffer := buffer[1..];
          waiters := waiters[1..];
          done := [PutDone(putter.id, Success)];
        } else {
          buffer := buffer[1..];
          if |buffer| == 0 {
            getState := if putState == Closed then Closed else Block;
          }
          putState := if putState == Closed then Closed else Buffer;
        }
        error := Success;
      case Waiter =>
        var putter := waiters[0];
        value := Some(putter.value);
        waiters := waiters[1..];
        if waiters == [] {
          getState := if putState == Closed then Closed else Block;
        }
        done := [PutDone(putter.id, Success)];
        error := Success;
      case Closed =>
        error := BrokenPipe;
    }

    method StartPut(id: OpId, v: V) returns (done: seq<Completion<V>>)
      requires Valid()
      modifies this
      ensures Valid() && Did(old(View()), Action.StartPut(id, v), Success, None, done)
    {
      InvMeansDefined(View(), Action.StartPut(id, v));
      StepKeepsInv(View(), Action.StartPut(id, v));
      match putState
      case Block =>
        waiters := waiters + [PutOp(id, v)];
        if getState == Block {
          getState := Waiter;
        }
        done := [];
      case Buffer =>
        buffer := buffer + [v];
        getState := Buffer;
        if |buffer| == capacity {
          putState := Block;
        }
        done := [PutDone(id, Success)];
      case Waiter =>
        var getter := waiters[0];
        waiters := waiters[1..];
        if waiters == [] {
          putState := if capacity != 0 then Buffer else Block;
        }
        done := [GetDone(getter.id, Success, Some(v)), PutDone(id, Success)];
      case Closed =>
        done := [PutDone(id, BrokenPipe)];
    }

    method StartGet(id: OpId) returns (done: seq<Completion<V>>)
      requires Valid()
      modifies this
      ensures Valid() && Did(old(View()), Action.StartGet(id), Success, None, done)
    {
      InvMeansDefined(View(), Action.StartGet(id));
      StepKeepsInv(View(), Action.StartGet(id));
      match getState
      case Block =>
        waiters := waiters + [GetOp(id)];
        if putState != Closed {
          putState := Waiter;
        }
        done := [];
      case Buffer =>
        var v := buffer[0];
        if waiters != [] {
          var putter := waiters[0];
          buffer := buffer + [putter.value];
          buffer := buffer[1..];
          waiters := waiters[1..];
          done := [PutDone(putter.id, Success)];
        } else {
          buffer := buffer[1..];
          if |buffer| == 0 {
            getState := if putState == Closed then Closed else Block;
          }
          putState := if putState == Closed then Closed else Buffer;
          done := [];
        }
        done := done + [GetDone(id, Success, Some(v))];
      case Waiter =>
        var putter := waiters[0];
        waiters := waiters[1..];
        if waiters == [] {
          getState := if putState == Closed then Closed else Block;
        }
        done := [PutDone(putter.id, Success), GetDone(id, Success, Some(putter.value))];
      case Closed =>
        done := [GetDone(id, BrokenPipe, None)];
    }

    /** The loops of `_Close` and `_Cancel`. */
    method FinishWaiters(error: Error) returns (done: seq<Completion<V>>)
      modifies `waiters
      ensures waiters == [] && done == FinishAll(old(waiters), error)
    {
      done := [];
      while waiters != []
        invariant |done| + |waiters| == |old(waiters)|
        invariant waiters == old(waiters)[|done|..]
        invariant done == FinishAll(old(waiters), error)[..|done|]
        decreases |waiters|
      {
        var op := waiters[0];
        waiters := waiters[1..];
        done := done + [Finish(op, error)];
      }
    }

    method Close() returns (done: seq<Completion<V>>)
      requires Valid()
      modifies this
      ensures Valid() && Did(old(View()), Action.Close, Success, None, done)
    {
      StepKeepsInv(View(), Action.Close);
      done := [];
      putState := Closed;
      if getState == Block {
        getState := Closed;
        done := FinishWaiters(BrokenPipe);
      }
    }

    method Cancel() returns (done: seq<Completion<V>>)
      requires Valid()
      modifies this
      ensures Valid() && Did(old(View()), Action.Cancel, Success, None, done)
    {
      StepKeepsInv(View(), Action.Cancel);
      done := FinishWaiters(OperationCanceled);
      if getState == Waiter {
        getState := Block;
      }
      if putState == Waiter {
        putState := Block;
      }
    }

    /** Afterwards the channel can be used exactly if its buffer was not in use. */
    method Reset() returns (done: seq<Completion<V>>)
      requires Valid()
      modifies this
      ensures Did(old(View()), Action.Reset, Success, None, done)
      ensures Valid() <==> old(getState) != Buffer
    {
      ResetKeepsInvExactlyWithoutBuffer(View());
      done := Cancel();
      if getState == Closed {
        getState := Block;
      }
      if putState == Closed {
        putState := if capacity != 0 then Buffer else Block;
      }
      buffer := [];
    }
  }

  class CountingChannel {
    const capacity: nat
    var getState: End
    var putState: End
    var waiters: seq<OpId>
    var buffered: nat

    constructor (capacity: nat)
      ensures Valid() && View() == VC.Start(capacity)
    {
      this.capacity := capacity;
      getState, waiters, buffered := Block, [], 0;
      putState := if capacity != 0 then Buffer else Block;
    }

    function View(): VC.State
      reads this
    {
      VC.State(capacity, getState, putState, buffered, waiters)
    }

    ghost predicate Valid()
      reads this
    {
      VC.Inv(View())
    }

    ghost predicate Did(before: VC.State, a: VC.Action, error: Error, done: seq<VC.Completion>)
      reads this
    {
      VC.Defined(before, a) && VC.Step(before, a) == VC.Outcome(View(), error, done)
    }

    method Put() returns (error: Error, done: seq<VC.Completion>)
      requires Valid()
      modifies this
      ensures Valid() && Did(old(View()), VC.Put, error, done)
    {
      VC.InvMeansDefined(View(), VC.Put);
      VC.StepKeepsInv(View(), VC.Put);
      done := [];
      match putState
      case Block =>
        error := OperationWouldBlock;
      case Buffer =>
        buffered := buffered + 1;
        getState := Buffer;
        if buffered == capacity {
          putState := Block;
        }
        error := Success;
      case Waiter =>
        var getter := waiters[0];
        waiters := waiters[1..];
        if waiters == [] {
          putState := if capacity != 0 then Buffer else Block;
        }
        error := Success;
        done := [VC.Done(getter, Success)];
      case Closed =>
        error := BrokenPipe;
    }

    method Get() returns (error: Error, done: seq<VC.Completion>)
      requires Valid()
      modifies this
      ensures Valid() && Did(old(View()), VC.Get, error, done)
    {
      VC.InvMeansDefined(View(), VC.Get);
      VC.StepKeepsInv(View(), VC.Get);
      done := [];
      match getState
      case Block =>
        error := OperationWouldBlock;
      case Buffer =>
        if waiters != [] {
          var putter := waiters[0];
          waiters := waiters[1..];
          done := [VC.Done(putter, Success)];
        } else {
          buffered := buffered - 1;
          if buffered == 0 {
            getState := if putState == Closed then Closed else Block;
          }
          putState := if putState == Closed then Closed else Buffer;
        }
        error := Success;
      case Waiter =>
        var putter := waiters[0];
        waiters := waiters[1..];
        if waiters == [] {
          getState := if putState == Closed then Closed else Block;
        }
        done := [VC.Done(putter, Success)];
        error := Success;
      case Closed =>
        error := BrokenPipe;
    }

    method StartPut(id: OpId) returns (done: seq<VC.Completion>)
      requires Valid()
      modifies this
      ensures Valid() && Did(old(View()), VC.StartPut(id), Success, done)
    {
      VC.InvMeansDefined(View(), VC.StartPut(id));
      VC.StepKeepsInv(View(), VC.StartPut(id));
      match putState
      case Block =>
        waiters := waiters + [id];
        if getState == Block {
          getState := Waiter;
        }
        done := [];
      case Buffer =>
        buffered := buffered + 1;
        getState := Buffer;
        if buffered == capacity {
          putState := Block;
        }
        done := [VC.Done(id, Success)];
      case Waiter =>
        var getter := waiters[0];
        waiters := waiters[1..];
        if waiters == [] {
          putState := if capacity != 0 then Buffer else Block;
        }
        done := [VC.Done(getter, Success), VC.Done(id, Success)];
      case Closed =>
        done := [VC.Done(id, BrokenPipe)];
    }

    method StartGet(id: OpId) returns (done: seq<VC.Completion>)
      requires Valid()
      modifies this
      ensures Valid() && Did(old(View()), VC.StartGet(id), Success, done)
    {
      VC.InvMeansDefined(View(), VC.StartGet(id));
      VC.StepKeepsInv(View(), VC.StartGet(id));
      match getState
      case Block =>
        waiters := waiters + [id];
        if putState != Closed {
          putState := Waiter;
        }
        done := [];
      case Buffer =>
        if waiters != [] {
          var putter := waiters[0];
          waiters := waiters[1..];
          done := [VC.Done(putter, Success)];
        } else {
          buffered := buffered - 1;
          if buffered == 0 {
            getState := if putState == Closed then Closed else Block;
          }
          putState := if putState == Closed then Closed else Buffer;
          done := [];
        }
        done := done + [VC.Done(id, Success)];
      case Waiter =>
        var putter := waiters[0];
        waiters := waiters[1..];
        if waiters == [] {
          getState := if putState == Closed then Closed else Block;
        }
        done := [VC.Done(putter, Success), VC.Done(id, Success)];
      case Closed =>
        done := [VC.Done(id, BrokenPipe)];
    }

    method FinishWaiters(error: Error) returns (done: seq<VC.Completion>)
      modifies `waiters
      ensures waiters == [] && done == VC.FinishAll(old(waiters), error)
    {
      done := [];
      while waiters != []
        invariant |done| + |waiters| == |old(waiters)|
        invariant waiters == old(waiters)[|done|..]
        invariant done == VC.FinishAll(old(waiters), error)[..|done|]
        decreases |waiters|
      {
        done := done + [VC.Done(waiters[0], error)];
        waiters := waiters[1..];
      }
    }

    method Close() returns (done: seq<VC.Completion>)
      requires Valid()
      modifies this
      ensures Valid() && Did(old(View()), VC.Close, Success, done)
    {
      VC.StepKeepsInv(View(), VC.Close);
      done := [];
      putState := Closed;
      if getState == Block {
        getState := Closed;
        done := FinishWaiters(BrokenPipe);
      }
    }

    method Cancel() returns (done: seq<VC.Completion>)
      requires Valid()
      modifies this
      ensures Valid() && Did(old(View()), VC.Cancel, Success, done)
    {
      VC.StepKeepsInv(View(), VC.Cancel);
      done := FinishWaiters(OperationCanceled);
      if getState == Waiter {
        getState := Block;
      }
      if putState == Waiter {
        putState := Block;
      }
    }

    method Reset() returns (done: seq<VC.Completion>)
      requires Valid()
      modifies this
      ensures Did(old(View()), VC.Reset, Success, done)
      ensures Valid() <==> old(getState) != Buffer
    {
      done := Cancel();
      if getState == Closed {
        getState := Block;
      }
      if putState == Closed {
        putState := if capacity != 0 then Buffer else Block;
      }
      buffered := 0;
    }
  }
}
