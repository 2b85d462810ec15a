/** A strand: any number of threads submit operations to any number of strands,
    and no two operations of one strand ever run at the same time. The flag
    `ready` stands for a token; whoever holds the token may touch the ready
    queue without the lock, and everybody else only joins the waiting queue. */
module Strand {
  import opened Basics

  type Tid = nat
  type Sid = nat
  type OpId = nat

  /** The fields of one strand. */
  datatype Impl = Impl(ready: bool, waiting: seq<OpId>, readyQueue: seq<OpId>)

  /** Which member function of the inner executor will be given the invoker. */
  datatype Submission = Dispatch | Post | Defer

  /** What a thread is in the middle of, innermost last.
      - `Claimed`: it has set `ready`, but not yet pushed its operation;
      - `Submitting`: it has pushed, but not yet handed over an invoker;
      - `Looping`, `Running`, `Exiting`, `Deferring`, `Leaving`: it is inside the
        call operator of an invoker, about to look at the ready queue, running
        an operation, about to lock in `_On_exit`, about to defer the invoker
        again, or about to return;
      - `Inline`: it runs a function dispatched from inside the strand. */
  datatype Frame =
    | Claimed(s: Sid, op: OpId, how: Submission)
    | Submitting(s: Sid, how: Submission)
    | Looping(s: Sid)
    | Running(s: Sid, op: OpId)
    | Exiting(s: Sid)
    | Deferring(s: Sid)
    | Leaving(s: Sid)
    | Inline(s: Sid, op: OpId)

  type Stack = seq<Frame>

  /** All strands, all threads' stacks, and how many invokers of each strand the
      inner executor holds. The history records, for each strand, what was
      enqueued in the order of the locks and what was taken to be run. */
  datatype System = System(
    impls: map<Sid, Impl>,
    stacks: map<Tid, Stack>,
    submitted: map<Sid, nat>,
    enqueued: map<Sid, seq<OpId>>,
    executed: map<Sid, seq<OpId>>)

  datatype Action =
    | Enqueue(s: Sid, op: OpId, how: Submission)
    | DispatchInline(s: Sid, op: OpId)
    | Push
    | Submit(inline: bool)
    | Invoke(s: Sid)
    | Pop
    | Return(throws: bool)
    | Exit
    | DeferAgain
    | Leave

  const FRESH := Impl(false, [], [])

  /** A thread runs user code when it is in no library frame, or when its
      innermost frame is one of a function that the library called. */
  predicate UserCode(stack: Stack) {
    stack == [] || Top(stack).Running? || Top(stack).Inline?
  }

  function Top(stack: Stack): Frame
    requires stack != []
  {
    stack[|stack| - 1]
  }

  function Replace(stack: Stack, f: Frame): Stack
    requires stack != []
  {
    stack[|stack| - 1 := f]
  }

  function Drop(stack: Stack): Stack
    requires stack != []
  {
    stack[..|stack| - 1]
  }

  /** `__call_stack::_Contains`: a call operator of the strand's invoker is
      somewhere on this thread's stack. */
  predicate Contains(stack: Stack, s: Sid) {
    exists i | 0 <= i < |stack| :: InInvoker(stack[i]) && stack[i].s == s
  }

  predicate InInvoker(f: Frame) {
    f.Looping? || f.Running? || f.Exiting? || f.Deferring? || f.Leaving?
  }

  // ---- One strand: what happens to its fields ----

  /** Under the lock: join the waiting queue, or claim the token. */
  function Claim(i: Impl, op: OpId): Impl {
    if i.ready then i.(waiting := i.waiting + [op]) else i.(ready := true)
  }

  function PushReady(i: Impl, op: OpId): Impl {
    i.(readyQueue := i.readyQueue + [op])
  }

  function PopReady(i: Impl): Impl
    requires i.readyQueue != []
  {
    i.(readyQueue := i.readyQueue[1..])
  }

  /** Under the lock: everything that waits becomes ready, and the token is
      given up if that is nothing. */
  function Release(i: Impl): Impl {
    Impl(i.readyQueue + i.waiting != [], [], i.readyQueue + i.waiting)
  }

  // ---- All threads and strands ----

  function ImplOf(g: System, s: Sid): Impl {
    if s in g.impls then g.impls[s] else FRESH
  }

  function StackOf(g: System, t: Tid): Stack {
    if t in g.stacks then g.stacks[t] else []
  }

  function SubmittedOf(g: System, s: Sid): nat {
    if s in g.submitted then g.submitted[s] else 0
  }

  function History(h: map<Sid, seq<OpId>>, s: Sid): seq<OpId> {
    if s in h then h[s] else []
  }

  /** The strand that a step of a thread with this stack is about. */
  function Acted(stack: Stack, a: Action): Sid {
    match a
    case Enqueue(s, op, how) => s
    case DispatchInline(s, op) => s
    case Invoke(s) => s
    case _ => if stack == [] then 0 else Top(stack).s
  }

  /** `n` is the number of invokers of the strand that the executor holds. */
  predicate EnabledIn(stack: Stack, n: nat, a: Action) {
    match a
    case Enqueue(s, op, how) => UserCode(stack) && (how.Dispatch? ==> !Contains(stack, s))
    case DispatchInline(s, op) => UserCode(stack) && Contains(stack, s)
    case Push => stack != [] && Top(stack).Claimed?
    case Submit(inline) => stack != [] && Top(stack).Submitting? && (inline ==> Top(stack).how.Dispatch?)
    case Invoke(s) => UserCode(stack) && n > 0
    case Pop => stack != [] && Top(stack).Looping?
    case Return(throws) => stack != [] && (Top(stack).Running? || Top(stack).Inline?)
    case Exit => stack != [] && Top(stack).Exiting?
    case DeferAgain => stack != [] && Top(stack).Deferring?
    case Leave => stack != [] && Top(stack).Leaving?
  }

  /** What a step does to the strand it is about, to the number of its invokers
      that the executor holds, and to the stack of the thread. */
  datatype Effect = Effect(i: Impl, n: nat, stack: Stack, enqueued: seq<OpId>, executed: seq<OpId>)

  function EffectOf(i: Impl, n: nat, stack: Stack, a: Action): Effect
    requires EnabledIn(stack, n, a)
  {
    match a
    case Enqueue(s, op, how) =>
      Effect(Claim(i, op), n, if i.ready then stack else stack + [Claimed(s, op, how)], [op], [])
    case DispatchInline(s, op) =>
      Effect(i, n, stack + [Inline(s, op)], [], [])
    case Push =>
      Effect(PushReady(i, Top(stack).op), n, Replace(stack, Submitting(Top(stack).s, Top(stack).how)), [], [])
    case Submit(inline) =>
      if inline then Effect(i, n, Replace(stack, Looping(Top(stack).s)), [], [])
      else Effect(i, n + 1, Drop(stack), [], [])
    case Invoke(s) =>
      Effect(i, n - 1, stack + [Looping(s)], [], [])
    case Pop =>
      if i.readyQueue == [] then Effect(i, n, Replace(stack, Exiting(Top(stack).s)), [], [])
      else Effect(PopReady(i), n, Replace(stack, Running(Top(stack).s, i.readyQueue[0])), [], [i.readyQueue[0]])
    case Return(throws) =>
      if Top(stack).Inline? then Effect(i, n, Drop(stack), [], [])
      else Effect(i, n, Replace(stack, if throws then Exiting(Top(stack).s) else Looping(Top(stack).s)), [], [])
    case Exit =>
      var i' := Release(i);
      Effect(i', n, Replace(stack, if i'.ready then Deferring(Top(stack).s) else Leaving(Top(stack).s)), [], [])
    case DeferAgain =>
      Effect(i, n + 1, Replace(stack, Leaving(Top(stack).s)), [], [])
    case Leave =>
      Effect(i, n, Drop(stack), [], [])
  }

  predicate Enabled(g: System, t: Tid, a: Action) {
    EnabledIn(StackOf(g, t), SubmittedOf(g, Acted(StackOf(g, t), a)), a)
  }

  function EffectIn(g: System, t: Tid, a: Action): Effect
    requires Enabled(g, t, a)
  {
    var s := Acted(StackOf(g, t), a);
    EffectOf(ImplOf(g, s), SubmittedOf(g, s), StackOf(g, t), a)
  }

  /** Thread `t` takes step `a`. */
  function Step(g: System, t: Tid, a: Action): System
    requires Enabled(g, t, a)
  {
    var s, e := Acted(StackOf(g, t), a), EffectIn(g, t, a);
    System(
      g.impls[s := e.i], g.stacks[t := e.stack], g.submitted[s := e.n],
      g.enqueued[s := History(g.enqueued, s) + e.enqueued],
      g.executed[s := History(g.executed, s) + e.executed])
  }

  // ---- The token ----

  /** Where the token of a strand is: on a thread's stack, at a certain depth,
      or with an invoker that the inner executor holds. */
  datatype Place = Nowhere | Submitted | Held(t: Tid, depth: nat)

  type Tokens = map<Sid, Place>

  function PlaceOf(tokens: Tokens, s: Sid): Place {
    if s in tokens then tokens[s] else Nowhere
  }

  predicate Holds(f: Frame) {
    !f.Leaving? && !f.Inline?
  }

  /** The frame where the token is, if it is on a stack. */
  function HolderIn(stack: Stack, place: Place): Option<Frame> {
    if place.Held? && place.depth < |stack| then Some(stack[place.depth]) else None
  }

  function Holder(g: System, place: Place): Option<Frame> {
    if place.Held? then HolderIn(StackOf(g, place.t), place) else None
  }

  /** The operation of a thread that has claimed the token but not pushed yet. */
  function ClaimedOp(holder: Option<Frame>): seq<OpId> {
    if holder.Some? && holder.value.Claimed? then [holder.value.op] else []
  }

  /** One strand's flag, invokers and queues agree with the place of its token,
      and every operation enqueued is run, ready, claimed or waiting, in order. */
  predicate StrandOk(s: Sid, i: Impl, n: nat, enqueued: seq<OpId>, executed: seq<OpId>, place: Place, holder: Option<Frame>) {
    && (i.ready <==> place != Nowhere)
    && n == (if place == Submitted then 1 else 0)
    && (place.Held? ==> holder.Some? && Holds(holder.value) && holder.value.s == s)
    && (!place.Held? ==> holder.None?)
    && (!i.ready ==> i.waiting == [] && i.readyQueue == [])
    && (ClaimedOp(holder) != [] ==> i.readyQueue == [])
    && enqueued == executed + i.readyQueue + ClaimedOp(holder) + i.waiting
  }

  predicate StrandOkIn(g: System, s: Sid, place: Place) {
    StrandOk(s, ImplOf(g, s), SubmittedOf(g, s), History(g.enqueued, s), History(g.executed, s), place, Holder(g, place))
  }

  /** A frame that holds a token is where the token is; a function dispatched
      inline runs above an operation of its strand on the same thread; and
      library code is only ever innermost. */
  predicate FrameOk(stack: Stack, t: Tid, i: nat, place: Place)
    requires i < |stack|
  {
    && (Holds(stack[i]) ==> place == Held(t, i))
    && (stack[i].Inline? ==> place.Held? && place.t == t && place.depth < i && stack[place.depth].Running?)
    && (i + 1 < |stack| ==> stack[i].Running? || stack[i].Inline?)
  }

  ghost predicate InvWith(g: System, tokens: Tokens) {
    && (forall s :: StrandOkIn(g, s, PlaceOf(tokens, s)))
    && (forall t, i | 0 <= i < |StackOf(g, t)| :: FrameOk(StackOf(g, t), t, i, PlaceOf(tokens, StackOf(g, t)[i].s)))
  }

  ghost predicate Inv(g: System) {
    exists tokens: Tokens :: InvWith(g, tokens)
  }

  /** Where a step moves the token of the strand it is about. */
  function NewPlace(i: Impl, stack: Stack, t: Tid, a: Action, place: Place): Place {
    match a
    case Enqueue(s, op, how) => if i.ready then place else Held(t, |stack|)
    case Submit(inline) => if inline then place else Submitted
    case Invoke(s) => Held(t, |stack|)
    case Exit => if Release(i).ready then place else Nowhere
    case DeferAgain => Submitted
    case _ => place
  }

  /** The stack of the acting thread is in order as far as strand `s` goes. */
  ghost predicate StackOk(s: Sid, stack: Stack, t: Tid, place: Place) {
    && (forall j | 0 <= j < |stack| && stack[j].s == s :: FrameOk(stack, t, j, place))
    && (forall j | 0 <= j < |stack| - 1 :: stack[j].Running? || stack[j].Inline?)
  }

  ghost predicate KeepsPre(s: Sid, i: Impl, n: nat, enqueued: seq<OpId>, executed: seq<OpId>,
                           stack: Stack, t: Tid, a: Action, place: Place, holder: Option<Frame>) {
    && EnabledIn(stack, n, a) && s == Acted(stack, a) && StackOk(s, stack, t, place)
    && StrandOk(s, i, n, enqueued, executed, place, holder)
    && (place.Held? && place.t == t ==> holder == HolderIn(stack, place))
  }

  ghost predicate KeepsPost(s: Sid, i: Impl, n: nat, enqueued: seq<OpId>, executed: seq<OpId>,
                            stack: Stack, t: Tid, a: Action, place: Place, holder: Option<Frame>)
    requires EnabledIn(stack, n, a)
  {
    var e, place' := EffectOf(i, n, stack, a), NewPlace(i, stack, t, a, place);
    StrandOk(s, e.i, e.n, enqueued + e.enqueued, executed + e.executed, place',
             if place'.Held? && place'.t == t then HolderIn(e.stack, place')
             else if place'.Held? then holder else None)
  }

  lemma SubmissionKeeps(s: Sid, i: Impl, n: nat, enqueued: seq<OpId>, executed: seq<OpId>,
                        stack: Stack, t: Tid, a: Action, place: Place, holder: Option<Frame>)
    requires KeepsPre(s, i, n, enqueued, executed, stack, t, a, place, holder) && (a.Enqueue? || a.DispatchInline? || a.Invoke?)
    ensures KeepsPost(s, i, n, enqueued, executed, stack, t, a, place, holder)
  {
  }

  lemma TopHolds(s: Sid, i: Impl, n: nat, enqueued: seq<OpId>, executed: seq<OpId>,
                 stack: Stack, t: Tid, a: Action, place: Place, holder: Option<Frame>)
    requires KeepsPre(s, i, n, enqueued, executed, stack, t, a, place, holder)
    requires stack != [] && Top(stack).s == s && Holds(Top(stack))
    ensures place == Held(t, |stack| - 1) && holder == Some(Top(stack)) && i.ready && n == 0
  {
    assert FrameOk(stack, t, |stack| - 1, place);
  }

  lemma PushKeeps(s: Sid, i: Impl, n: nat, enqueued: seq<OpId>, executed: seq<OpId>,
                  stack: Stack, t: Tid, a: Action, place: Place, holder: Option<Frame>)
    requires KeepsPre(s, i, n, enqueued, executed, stack, t, a, place, holder) && a.Push?
    ensures KeepsPost(s, i, n, enqueued, executed, stack, t, a, place, holder)
  {
    TopHolds(s, i, n, enqueued, executed, stack, t, a, place, holder);
    hide StackOk, FrameOk;
  }

  lemma PopKeeps(s: Sid, i: Impl, n: nat, enqueued: seq<OpId>, executed: seq<OpId>,
                 stack: Stack, t: Tid, a: Action, place: Place, holder: Option<Frame>)
    requires KeepsPre(s, i, n, enqueued, executed, stack, t, a, place, holder) && a.Pop?
    ensures KeepsPost(s, i, n, enqueued, executed, stack, t, a, place, holder)
  {
    TopHolds(s, i, n, enqueued, executed, stack, t, a, place, holder);
    hide StackOk, FrameOk;
    if i.readyQueue != [] {
      assert i.readyQueue == [i.readyQueue[0]] + i.readyQueue[1..];
    }
  }

  lemma ExitKeeps(s: Sid, i: Impl, n: nat, enqueued: seq<OpId>, executed: seq<OpId>,
                  stack: Stack, t: Tid, a: Action, place: Place, holder: Option<Frame>)
    requires KeepsPre(s, i, n, enqueued, executed, stack, t, a, place, holder) && a.Exit?
    ensures KeepsPost(s, i, n, enqueued, executed, stack, t, a, place, holder)
  {
    TopHolds(s, i, n, enqueued, executed, stack, t, a, place, holder);
    hide StackOk, FrameOk;
    assert executed + i.readyQueue + [] + i.waiting == executed + (i.readyQueue + i.waiting) + [] + [];
  }

  lemma HandOverKeeps(s: Sid, i: Impl, n: nat, enqueued: seq<OpId>, executed: seq<OpId>,
                      stack: Stack, t: Tid, a: Action, place: Place, holder: Option<Frame>)
    requires KeepsPre(s, i, n, enqueued, executed, stack, t, a, place, holder)
    requires a.Submit? || a.Return? || a.DeferAgain? || a.Leave?
    ensures KeepsPost(s, i, n, enqueued, executed, stack, t, a, place, holder)
  {
    if Holds(Top(stack)) {
      TopHolds(s, i, n, enqueued, executed, stack, t, a, place, holder);
    } else {
      assert FrameOk(stack, t, |stack| - 1, place);
    }
  }

  /** A step leaves its own thread's stack in order. */
  lemma OwnFramesKeep(s: Sid, i: Impl, n: nat, stack: Stack, t: Tid, a: Action, place: Place, j: nat, other: Place)
    requires EnabledIn(stack, n, a) && s == Acted(stack, a) && StackOk(s, stack, t, place)
    requires n == if place == Submitted then 1 else 0
    requires i.ready <==> place != Nowhere
    requires var e := EffectOf(i, n, stack, a);
             j < |e.stack| && (j < |stack| && e.stack[j].s != s ==> FrameOk(stack, t, j, other))
    ensures var e, place' := EffectOf(i, n, stack, a), NewPlace(i, stack, t, a, place);
            FrameOk(e.stack, t, j, if e.stack[j].s == s then place' else other)
  {
    if j < |stack| && stack[j].s == s {
      assert FrameOk(stack, t, j, place);
    }
    if stack != [] && Top(stack).s == s {
      assert FrameOk(stack, t, |stack| - 1, place);
    }
    match a
    case Enqueue(_, _, _) =>
    case DispatchInline(_, _) =>
    case Invoke(_) =>
    case Push =>
    case Submit(_) =>
    case Pop =>
    case Return(_) =>
    case Exit =>
    case DeferAgain =>
    case Leave =>
  }

  /** A step does not move a token that is on another thread's stack. */
  lemma ForeignTokenStays(s: Sid, i: Impl, n: nat, stack: Stack, t: Tid, a: Action, place: Place)
    requires EnabledIn(stack, n, a) && s == Acted(stack, a) && StackOk(s, stack, t, place)
    requires n == if place == Submitted then 1 else 0
    requires i.ready <==> place != Nowhere
    requires place.Held? && place.t != t
    ensures NewPlace(i, stack, t, a, place) == place
  {
    if stack != [] && Top(stack).s == s {
      assert FrameOk(stack, t, |stack| - 1, place);
    }
  }

  function NewTokens(g: System, t: Tid, a: Action, tokens: Tokens): Tokens {
    var s := Acted(StackOf(g, t), a);
    tokens[s := NewPlace(ImplOf(g, s), StackOf(g, t), t, a, PlaceOf(tokens, s))]
  }

  lemma ActedStrandKeeps(g: System, t: Tid, a: Action, tokens: Tokens)
    requires InvWith(g, tokens) && Enabled(g, t, a)
    ensures var s := Acted(StackOf(g, t), a); StrandOkIn(Step(g, t, a), s, PlaceOf(NewTokens(g, t, a, tokens), s))
  {
    var stack := StackOf(g, t);
    var s := Acted(stack, a);
    var i, n, place := ImplOf(g, s), SubmittedOf(g, s), PlaceOf(tokens, s);
    var enqueued, executed, holder := History(g.enqueued, s), History(g.executed, s), Holder(g, place);
    assert StrandOkIn(g, s, place) && StackOk(s, stack, t, place);
    hide StackOk, StrandOk, NewPlace, EffectOf;
    if a.Enqueue? || a.DispatchInline? || a.Invoke? {
      SubmissionKeeps(s, i, n, enqueued, executed, stack, t, a, place, holder);
    } else if a.Push? {
      PushKeeps(s, i, n, enqueued, executed, stack, t, a, place, holder);
    } else if a.Pop? {
      PopKeeps(s, i, n, enqueued, executed, stack, t, a, place, holder);
    } else if a.Exit? {
      ExitKeeps(s, i, n, enqueued, executed, stack, t, a, place, holder);
    } else {
      HandOverKeeps(s, i, n, enqueued, executed, stack, t, a, place, holder);
    }
    PlaceKnown(s, i, n, stack, t, a, place);
  }

  /** A token is with the acting thread, with the executor or nowhere after a
      step, or else it was not moved. */
  lemma PlaceKnown(s: Sid, i: Impl, n: nat, stack: Stack, t: Tid, a: Action, place: Place)
    requires EnabledIn(stack, n, a) && s == Acted(stack, a)
    ensures var place' := NewPlace(i, stack, t, a, place); place'.Held? && place'.t != t ==> place' == place
  {
  }

  /** The stack below the innermost frame is as before, and so is the innermost
      frame unless it belongs to the strand that the step is about. */
  lemma OtherHolderStays(i: Impl, n: nat, stack: Stack, a: Action, place: Place, s: Sid)
    requires EnabledIn(stack, n, a) && s != Acted(stack, a)
    requires HolderIn(stack, place).Some? && HolderIn(stack, place).value.s == s
    ensures HolderIn(EffectOf(i, n, stack, a).stack, place) == HolderIn(stack, place)
  {
  }

  lemma OtherStrandKeeps(g: System, t: Tid, a: Action, tokens: Tokens, s: Sid)
    requires InvWith(g, tokens) && Enabled(g, t, a) && s != Acted(StackOf(g, t), a)
    ensures StrandOkIn(Step(g, t, a), s, PlaceOf(NewTokens(g, t, a, tokens), s))
  {
    var place := PlaceOf(tokens, s);
    var s0 := Acted(StackOf(g, t), a);
    assert StrandOkIn(g, s, place);
    hide EffectOf, NewPlace;
    if place.Held? && place.t == t {
      OtherHolderStays(ImplOf(g, s0), SubmittedOf(g, s0), StackOf(g, t), a, place, s);
    }
  }

  /** What the invariant says about the strand that a step is about. */
  lemma AboutActed(g: System, t: Tid, a: Action, tokens: Tokens)
    requires InvWith(g, tokens) && Enabled(g, t, a)
    ensures var s := Acted(StackOf(g, t), a);
            StrandOkIn(g, s, PlaceOf(tokens, s)) && StackOk(s, StackOf(g, t), t, PlaceOf(tokens, s))
  {
  }

  lemma OwnFrameKeeps(g: System, t: Tid, a: Action, tokens: Tokens, j: nat)
    requires InvWith(g, tokens) && Enabled(g, t, a) && j < |EffectIn(g, t, a).stack|
    ensures var stack := EffectIn(g, t, a).stack;
            FrameOk(stack, t, j, PlaceOf(NewTokens(g, t, a, tokens), stack[j].s))
  {
    var stack, s := StackOf(g, t), Acted(StackOf(g, t), a);
    var place, other := PlaceOf(tokens, s), PlaceOf(tokens, EffectIn(g, t, a).stack[j].s);
    AboutActed(g, t, a, tokens);
    if j < |stack| {
      assert FrameOk(stack, t, j, PlaceOf(tokens, stack[j].s));
      StackBelowStays(ImplOf(g, s), SubmittedOf(g, s), stack, a, j);
    }
    hide EffectOf, NewPlace, FrameOk, StackOk, InvWith;
    OwnFramesKeep(s, ImplOf(g, s), SubmittedOf(g, s), stack, t, a, place, j, other);
  }

  lemma ForeignFrameKeeps(g: System, t: Tid, a: Action, tokens: Tokens, u: Tid, j: nat)
    requires InvWith(g, tokens) && Enabled(g, t, a) && u != t && j < |StackOf(g, u)|
    ensures FrameOk(StackOf(g, u), u, j, PlaceOf(NewTokens(g, t, a, tokens), StackOf(g, u)[j].s))
  {
    var stack, s := StackOf(g, t), Acted(StackOf(g, t), a);
    var place := PlaceOf(tokens, s);
    AboutActed(g, t, a, tokens);
    assert FrameOk(StackOf(g, u), u, j, PlaceOf(tokens, StackOf(g, u)[j].s));
    hide EffectOf, NewPlace, StackOk, InvWith;
    if place.Held? && place.t != t {
      ForeignTokenStays(s, ImplOf(g, s), SubmittedOf(g, s), stack, t, a, place);
    }
  }

  /** A step keeps the strand of every frame it leaves on the stack. */
  lemma StackBelowStays(i: Impl, n: nat, stack: Stack, a: Action, j: nat)
    requires EnabledIn(stack, n, a) && j < |stack| && j < |EffectOf(i, n, stack, a).stack|
    ensures EffectOf(i, n, stack, a).stack[j].s == stack[j].s
  {
  }

  lemma StepKeepsInv(g: System, t: Tid, a: Action)
    requires Inv(g) && Enabled(g, t, a)
    ensures Inv(Step(g, t, a))
  {
    var tokens: Tokens :| InvWith(g, tokens);
    var tokens' := NewTokens(g, t, a, tokens);
    forall s
      ensures StrandOkIn(Step(g, t, a), s, PlaceOf(tokens', s))
    {
      if s == Acted(StackOf(g, t), a) {
        ActedStrandKeeps(g, t, a, tokens);
      } else {
        OtherStrandKeeps(g, t, a, tokens, s);
      }
    }
    forall u, j | 0 <= j < |StackOf(Step(g, t, a), u)|
      ensures FrameOk(StackOf(Step(g, t, a), u), u, j, PlaceOf(tokens', StackOf(Step(g, t, a), u)[j].s))
    {
      if u == t {
        OwnFrameKeeps(g, t, a, tokens, j);
      } else {
        ForeignFrameKeeps(g, t, a, tokens, u, j);
      }
    }
    assert InvWith(Step(g, t, a), tokens');
  }

  // ---- Whole runs ----

  const START := System(map[], map[], map[], map[], map[])

  /** A run: which thread takes which step, and the systems in between. */
  ghost predicate IsRun(systems: seq<System>, steps: seq<(Tid, Action)>) {
    && |systems| == |steps| + 1 && systems[0] == START
    && forall n | 0 <= n < |steps| ::
         && Enabled(systems[n], steps[n].0, steps[n].1)
         && systems[n + 1] == Step(systems[n], steps[n].0, steps[n].1)
  }

  lemma {:induction false} RunKeepsInv(systems: seq<System>, steps: seq<(Tid, Action)>, n: nat)
    requires IsRun(systems, steps) && n < |systems|
    ensures Inv(systems[n])
  {
    if n == 0 {
      var tokens: Tokens := map[];
      assert InvWith(START, tokens);
    } else {
      RunKeepsInv(systems, steps, n - 1);
      StepKeepsInv(systems[n - 1], steps[n - 1].0, steps[n - 1].1);
    }
  }

  /** The thread runs an operation of the strand, directly or inline. */
  predicate Executes(g: System, t: Tid, s: Sid) {
    exists i | 0 <= i < |StackOf(g, t)| :: RunsFor(StackOf(g, t)[i], s)
  }

  predicate RunsFor(f: Frame, s: Sid) {
    (f.Running? || f.Inline?) && f.s == s
  }

  /** No two operations submitted to one strand run on two threads at once, and
      the loop of a strand is never entered twice. */
  lemma Exclusion(systems: seq<System>, steps: seq<(Tid, Action)>, n: nat, s: Sid)
    requires IsRun(systems, steps) && n < |systems|
    ensures forall t, u | Executes(systems[n], t, s) && Executes(systems[n], u, s) :: t == u
    ensures forall t, i, u, j | 0 <= i < |StackOf(systems[n], t)| && 0 <= j < |StackOf(systems[n], u)| ::
              HoldsFor(StackOf(systems[n], t)[i], s) && HoldsFor(StackOf(systems[n], u)[j], s) ==> t == u && i == j
  {
    var g := systems[n];
    RunKeepsInv(systems, steps, n);
    var tokens: Tokens :| InvWith(g, tokens);
    forall t | Executes(g, t, s)
      ensures PlaceOf(tokens, s).Held? && PlaceOf(tokens, s).t == t
    {
      var i :| 0 <= i < |StackOf(g, t)| && RunsFor(StackOf(g, t)[i], s);
      assert FrameOk(StackOf(g, t), t, i, PlaceOf(tokens, s));
    }
    forall t, i | 0 <= i < |StackOf(g, t)| && HoldsFor(StackOf(g, t)[i], s)
      ensures PlaceOf(tokens, s) == Held(t, i)
    {
      assert FrameOk(StackOf(g, t), t, i, PlaceOf(tokens, s));
    }
  }

  predicate HoldsFor(f: Frame, s: Sid) {
    Holds(f) && f.s == s
  }

  /** `ready` is set exactly while one thread or one invoker carries the token. */
  lemma ReadyIffToken(systems: seq<System>, steps: seq<(Tid, Action)>, n: nat, s: Sid)
    requires IsRun(systems, steps) && n < |systems|
    ensures var g := systems[n];
            var held := exists t, i :: 0 <= i < |StackOf(g, t)| && HoldsFor(StackOf(g, t)[i], s);
            && (ImplOf(g, s).ready <==> held || SubmittedOf(g, s) != 0)
            && SubmittedOf(g, s) <= 1 && !(held && SubmittedOf(g, s) != 0)
  {
    var g := systems[n];
    RunKeepsInv(systems, steps, n);
    var tokens: Tokens :| InvWith(g, tokens);
    var place := PlaceOf(tokens, s);
    assert StrandOkIn(g, s, place);
    forall t, i | 0 <= i < |StackOf(g, t)| && HoldsFor(StackOf(g, t)[i], s)
      ensures place == Held(t, i)
    {
      assert FrameOk(StackOf(g, t), t, i, place);
    }
    if place.Held? {
      assert HoldsFor(StackOf(g, place.t)[place.depth], s);
    }
  }

  /** Only the thread that carries the token changes the ready queue, although
      it holds no lock: its innermost frame holds the token of that strand. */
  lemma OnlyHolderTouchesReadyQueue(systems: seq<System>, steps: seq<(Tid, Action)>, n: nat, s: Sid)
    requires IsRun(systems, steps) && n < |steps|
    requires ImplOf(systems[n + 1], s).readyQueue != ImplOf(systems[n], s).readyQueue || steps[n].1.Pop?
    ensures var g, t := systems[n], steps[n].0;
            && StackOf(g, t) != [] && Holds(Top(StackOf(g, t))) && SubmittedOf(g, Top(StackOf(g, t)).s) == 0
            && (!steps[n].1.Pop? ==> Top(StackOf(g, t)).s == s)
            && forall u, j | 0 <= j < |StackOf(g, u)| && u != t :: !HoldsFor(StackOf(g, u)[j], Top(StackOf(g, t)).s)
  {
    var g, t := systems[n], steps[n].0;
    var stack := StackOf(g, t);
    Exclusion(systems, steps, n, Top(stack).s);
    assert HoldsFor(stack[|stack| - 1], Top(stack).s);
    ReadyIffToken(systems, steps, n, Top(stack).s);
  }

  /** In every run, what was enqueued on a strand is, in the order of the locks,
      what was taken to be run, then what is ready, then what a thread has
      claimed the token for but not pushed yet, then what waits. Without a
      token nothing is left over, so nothing is ever lost. */
  lemma FifoAndNoLoss(systems: seq<System>, steps: seq<(Tid, Action)>, n: nat, s: Sid) returns (claimed: seq<OpId>)
    requires IsRun(systems, steps) && n < |systems|
    ensures var g := systems[n];
            && History(g.enqueued, s)
               == History(g.executed, s) + ImplOf(g, s).readyQueue + claimed + ImplOf(g, s).waiting
            && (claimed == [] || (|claimed| == 1 && ClaimedBySomeone(g, s, claimed[0])))
            && (forall op: OpId | ClaimedBySomeone(g, s, op) :: claimed == [op])
            && (!ImplOf(g, s).ready ==> History(g.enqueued, s) == History(g.executed, s))
  {
    var g := systems[n];
    RunKeepsInv(systems, steps, n);
    var tokens: Tokens :| InvWith(g, tokens);
    var place := PlaceOf(tokens, s);
    assert StrandOkIn(g, s, place);
    claimed := ClaimedOp(Holder(g, place));
    forall op: OpId | ClaimedBySomeone(g, s, op)
      ensures claimed == [op]
    {
      var t, i :| 0 <= i < |StackOf(g, t)| && IsClaim(StackOf(g, t)[i], s, op);
      assert FrameOk(StackOf(g, t), t, i, place);
    }
    if claimed != [] {
      assert IsClaim(StackOf(g, place.t)[place.depth], s, claimed[0]);
    }
  }

  ghost predicate ClaimedBySomeone(g: System, s: Sid, op: OpId) {
    exists t, i :: 0 <= i < |StackOf(g, t)| && IsClaim(StackOf(g, t)[i], s, op)
  }

  predicate IsClaim(f: Frame, s: Sid, op: OpId) {
    f.Claimed? && f.s == s && f.op == op
  }

  /** When every thread has returned and the executor holds no invoker, every
      operation ever enqueued has been run, in order, even if some threw. */
  lemma QuiescentMeansAllRun(systems: seq<System>, steps: seq<(Tid, Action)>, n: nat, s: Sid)
    requires IsRun(systems, steps) && n < |systems|
    requires SubmittedOf(systems[n], s) == 0 && forall t :: StackOf(systems[n], t) == []
    ensures History(systems[n].executed, s) == History(systems[n].enqueued, s)
  {
    ReadyIffToken(systems, steps, n, s);
    var claimed := FifoAndNoLoss(systems, steps, n, s);
  }

  /** The fields of a strand, as the four places in the code that touch them. */
  class StrandImpl {
    var ready: bool
    var waitingQueue: seq<OpId>
    var readyQueue: seq<OpId>

    constructor ()
      ensures State() == FRESH
    {
      ready, waitingQueue, readyQueue := false, [], [];
    }

    function State(): Impl
      reads this
    {
      Impl(ready, waitingQueue, readyQueue)
    }

    /** The locked part of `dispatch`, `post` and `defer`. */
    method LockedClaim(op: OpId) returns (claimed: bool)
      modifies this
      ensures State() == Claim(old(State()), op) && claimed == !old(ready)
      ensures ready && readyQueue == old(readyQueue)
      ensures waitingQueue == if claimed then old(waitingQueue) else old(waitingQueue) + [op]
    {
      claimed := !ready;
      if ready {
        waitingQueue := waitingQueue + [op];
        return;
      }
      ready := true;
    }

    /** The part of `dispatch`, `post` and `defer` after the lock. */
    method PushClaimed(op: OpId)
      modifies this
      ensures State() == PushReady(old(State()), op)
      ensures ready == old(ready) && waitingQueue == old(waitingQueue) && readyQueue == old(readyQueue) + [op]
    {
      readyQueue := readyQueue + [op];
    }

    /** One turn of the loop in the invoker's call operator. */
    method PopFront() returns (op: Option<OpId>)
      modifies this
      ensures op == None <==> old(readyQueue) == []
      ensures op.Some? ==> op.value == old(readyQueue)[0] && State() == PopReady(old(State()))
      ensures op.Some? ==> readyQueue == old(readyQueue)[1..] && waitingQueue == old(waitingQueue) && ready == old(ready)
      ensures op.None? ==> State() == old(State())
    {
      op := None;
      if readyQueue != [] {
        op := Some(readyQueue[0]);
        readyQueue := readyQueue[1..];
      }
    }

    /** The locked part of `_On_exit`. */
    method LockedRelease() returns (more: bool)
      modifies this
      ensures State() == Release(old(State())) && more == ready
      ensures waitingQueue == [] && readyQueue == old(readyQueue) + old(waitingQueue)
      ensures more <==> old(readyQueue) != [] || old(waitingQueue) != []
    {
      readyQueue := readyQueue + waitingQueue;
      waitingQueue := [];
      ready := readyQueue != [];
      more := ready;
    }

    /** The invoker's call operator with `_On_exit`, while nobody else enqueues and
        no operation throws: all that was ready is run, in order, all that waited
        is ready, and the invoker is deferred again exactly if that is something. */
    method Invoke() returns (ran: seq<OpId>, more: bool)
      modifies this
      ensures ran == old(readyQueue) && readyQueue == old(waitingQueue) && waitingQueue == []
      ensures more == ready && (more <==> old(waitingQueue) != [])
    {
      ran := [];
      var op := PopFront();
      while op.Some?
        invariant op.Some? ==> ran + [op.value] + readyQueue == old(readyQueue)
        invariant op.None? ==> ran == old(readyQueue) && readyQueue == []
        invariant waitingQueue == old(waitingQueue)
        decreases |readyQueue|, op.Some?
      {
        ran := ran + [op.value];
        op := PopFront();
      }
      more := LockedRelease();
    }
  }
}
