/** The join counter behind codispatch and copost: N heads complete in any order
    and on any threads, and the last one dispatches the tail with all results.
    A head that is destroyed without having completed only gives up its share. */
module Coinvoker {
  import opened Basics

  /** The arguments that one head passes on. */
  type Result<V> = seq<V>

  /** What became of a head: it still points to the tail, it has stored its result
      and is about to count down, it has completed, or it was destroyed first. */
  datatype Head = Pointing | Completing | Completed | Dropped

  datatype Tail = Alive | Dispatching | Freed

  /** `dispatched` are the arguments of each dispatch; a missing result, at which
      the code asserts, makes them None. `frees` counts the deletions. */
  datatype State<V> = State(
    pending: int,
    results: seq<Option<Result<V>>>,
    heads: seq<Head>,
    tail: Tail,
    dispatched: seq<Option<seq<V>>>,
    frees: nat)

  datatype Action<V> =
    | SetResult(i: nat, result: Result<V>)
    | Complete(i: nat)
    | Drop(i: nat)
    | Free

  /** The results one after the other, by index, if there is one in every slot. */
  function Arguments<V>(results: seq<Option<Result<V>>>): Option<seq<V>> {
    if results == [] then Some([])
    else
      var rest := Arguments(results[1..]);
      if results[0].Some? && rest.Some? then Some(results[0].value + rest.value) else None
  }

  /** Primed for n heads; without heads the tail is dispatched at once. */
  function Start<V>(n: nat): State<V> {
    var results := seq(n, i requires 0 <= i < n => None);
    var heads := seq(n, i requires 0 <= i < n => Pointing);
    if n > 0 then State(n, results, heads, Alive, [], 0)
    else State(0, results, heads, Dispatching, [Arguments(results)], 0)
  }

  predicate HeadIs<V>(s: State<V>, i: nat, h: Head) {
    i < |s.heads| && i < |s.results| && s.heads[i] == h
  }

  predicate Enabled<V>(s: State<V>, a: Action<V>) {
    match a
    case SetResult(i, _) => HeadIs(s, i, Pointing)
    case Complete(i) => HeadIs(s, i, Completing)
    case Drop(i) => HeadIs(s, i, Pointing)
    case Free => s.tail == Dispatching
  }

  function Step<V>(s: State<V>, a: Action<V>): State<V>
    requires Enabled(s, a)
  {
    match a
    case SetResult(i, r) => s.(results := s.results[i := Some(r)], heads := s.heads[i := Completing])
    case Complete(i) =>
      var next := s.(pending := s.pending - 1, heads := s.heads[i := Completed]);
      if next.pending == 0 then next.(tail := Dispatching, dispatched := s.dispatched + [Arguments(s.results)]) else next
    case Drop(i) =>
      var next := s.(pending := s.pending - 1, heads := s.heads[i := Dropped]);
      if next.pending == 0 then next.(tail := Freed, frees := s.frees + 1) else next
    case Free => s.(tail := Freed, frees := s.frees + 1)
  }

  // ---- What every step keeps ----

  predicate Points(h: Head) {
    h == Pointing || h == Completing
  }

  function Pointers(heads: seq<Head>): nat {
    if heads == [] then 0 else Pointers(heads[..|heads| - 1]) + if Points(heads[|heads| - 1]) then 1 else 0
  }

  predicate SlotOk<V>(h: Head, r: Option<Result<V>>) {
    r.Some? <==> h == Completing || h == Completed
  }

  predicate HasDropped(heads: seq<Head>) {
    exists i | 0 <= i < |heads| :: heads[i] == Dropped
  }

  /** The counter is the number of heads that still point to the tail; the tail
      lives as long as there are any; it is freed once, and dispatched at most
      once, with every result unless a head was dropped. */
  ghost predicate Inv<V>(s: State<V>) {
    && |s.results| == |s.heads|
    && s.pending == Pointers(s.heads)
    && (s.tail == Alive <==> s.pending > 0)
    && (forall i | 0 <= i < |s.heads| :: SlotOk(s.heads[i], s.results[i]))
    && s.frees == (if s.tail == Freed then 1 else 0)
    && (s.tail == Alive ==> s.dispatched == [])
    && (s.tail == Dispatching ==> s.dispatched != [])
    && (s.tail == Freed && s.dispatched == [] ==> HasDropped(s.heads))
    && (s.dispatched == [] || s.dispatched == [Arguments(s.results)])
  }

  lemma {:induction false} PointersAfter(heads: seq<Head>, i: nat, h: Head)
    requires i < |heads|
    ensures Pointers(heads[i := h]) == Pointers(heads) - (if Points(heads[i]) then 1 else 0) + if Points(h) then 1 else 0
    ensures Points(heads[i]) ==> Pointers(heads) > 0
  {
    var n := |heads| - 1;
    if i == n {
      assert heads[i := h][..n] == heads[..n];
    } else {
      PointersAfter(heads[..n], i, h);
      assert heads[i := h][..n] == heads[..n][i := h];
    }
  }

  lemma {:induction false} AllPoint(n: nat, heads: seq<Head>)
    requires |heads| == n && forall i | 0 <= i < n :: heads[i] == Pointing
    ensures Pointers(heads) == n
  {
    if n > 0 {
      AllPoint(n - 1, heads[..n - 1]);
    }
  }

  lemma StepKeepsInv<V>(s: State<V>, a: Action<V>)
    requires Inv(s) && Enabled(s, a)
    ensures Inv(Step(s, a))
  {
    match a
    case SetResult(i, _) => PointersAfter(s.heads, i, Completing);
    case Complete(i) => PointersAfter(s.heads, i, Completed);
    case Drop(i) =>
      PointersAfter(s.heads, i, Dropped);
      assert s.heads[i := Dropped][i] == Dropped;
    case Free =>
  }

  // ---- Whole runs ----

  ghost predicate IsRun<V(!new)>(states: seq<State<V>>, actions: seq<Action<V>>, n: nat) {
    && |states| == |actions| + 1 && states[0] == Start(n)
    && forall k | 0 <= k < |actions| :: Enabled(states[k], actions[k]) && states[k + 1] == Step(states[k], actions[k])
  }

  lemma {:induction false} RunKeepsInv<V(!new)>(states: seq<State<V>>, actions: seq<Action<V>>, n: nat, k: nat)
    requires IsRun(states, actions, n) && k < |states|
    ensures Inv(states[k]) && |states[k].heads| == n
  {
    if k == 0 {
      AllPoint(n, states[0].heads);
    } else {
      RunKeepsInv(states, actions, n, k - 1);
      StepKeepsInv(states[k - 1], actions[k - 1]);
    }
  }

  /** While a head points to the tail, the tail is alive; so no head ever touches
      a tail that was freed, and the counter never goes below zero. */
  lemma AliveWhilePointedTo<V(!new)>(states: seq<State<V>>, actions: seq<Action<V>>, n: nat, k: nat)
    requires IsRun(states, actions, n) && k < |states|
    ensures states[k].pending >= 0
    ensures forall i | 0 <= i < |states[k].heads| && Points(states[k].heads[i]) :: states[k].tail == Alive
    ensures k < |actions| && !actions[k].Free? ==> states[k].tail == Alive
  {
    RunKeepsInv(states, actions, n, k);
    forall i | 0 <= i < |states[k].heads| && Points(states[k].heads[i])
      ensures states[k].tail == Alive
    {
      PointersAfter(states[k].heads, i, states[k].heads[i]);
    }
  }

  /** The tail is never freed twice; and once every head has completed or was
      dropped, it has been freed once, or it is being dispatched and then is. */
  lemma FreedExactlyOnce<V(!new)>(states: seq<State<V>>, actions: seq<Action<V>>, n: nat, k: nat)
    requires IsRun(states, actions, n) && k < |states|
    ensures var s := states[k];
            && s.frees <= 1 && (k > 0 && actions[k - 1].Free? ==> s.frees == 1 && s.tail == Freed)
            && |s.heads| == n
            && ((forall i | 0 <= i < |s.heads| :: !Points(s.heads[i])) && s.tail != Dispatching <==> s.frees == 1)
  {
    RunKeepsInv(states, actions, n, k);
    if k > 0 {
      RunKeepsInv(states, actions, n, k - 1);
    }
    var s := states[k];
    if forall i | 0 <= i < |s.heads| :: !Points(s.heads[i]) {
      NonePoint(s.heads);
    } else {
      AliveWhilePointedTo(states, actions, n, k);
    }
  }

  lemma {:induction false} NonePoint(heads: seq<Head>)
    requires forall i | 0 <= i < |heads| :: !Points(heads[i])
    ensures Pointers(heads) == 0
  {
    if heads != [] {
      NonePoint(heads[..|heads| - 1]);
    }
  }

  /** If every head completes, in whatever order, then the tail is dispatched
      exactly once, and not before the last has completed; its arguments are the
      results of head 0, head 1, and so on. */
  lemma DispatchedOnceWithAllResults<V(!new)>(states: seq<State<V>>, actions: seq<Action<V>>, n: nat, k: nat)
    requires IsRun(states, actions, n) && k < |states|
    requires !HasDropped(states[k].heads)
    ensures var s := states[k];
            && |s.heads| == n
            && (s.dispatched != [] <==> forall i | 0 <= i < |s.heads| :: s.heads[i] == Completed)
            && (s.dispatched != [] ==> s.dispatched == [Arguments(s.results)] && s.dispatched[0].Some?)
  {
    RunKeepsInv(states, actions, n, k);
    var s := states[k];
    if s.dispatched != [] {
      forall i | 0 <= i < n
        ensures s.heads[i] == Completed
      {
        PointersAfter(s.heads, i, s.heads[i]);
      }
      ArgumentsThere(s.results);
    } else if forall i | 0 <= i < |s.heads| :: s.heads[i] == Completed {
      NonePoint(s.heads);
    }
  }

  lemma {:induction false} ArgumentsThere<V>(results: seq<Option<Result<V>>>)
    requires forall i | 0 <= i < |results| :: results[i].Some?
    ensures Arguments(results).Some?
  {
    if results != [] {
      ArgumentsThere(results[1..]);
    }
  }

  /** The arguments of a later head come after those of all earlier ones. */
  lemma {:induction false} ArgumentsInOrder<V>(earlier: seq<Option<Result<V>>>, last: Result<V>)
    requires Arguments(earlier).Some?
    ensures Arguments(earlier + [Some(last)]) == Some(Arguments(earlier).value + last)
  {
    if earlier == [] {
      assert earlier + [Some(last)] == [Some(last)];
      var only: seq<Option<Result<V>>> := [Some(last)];
      assert only[1..] == [] && Arguments(only) == Some(last + []);
      assert last + [] == last == [] + last;
    } else {
      assert (earlier + [Some(last)])[1..] == earlier[1..] + [Some(last)];
      ArgumentsInOrder(earlier[1..], last);
      var first, rest := earlier[0].value, Arguments(earlier[1..]).value;
      assert first + (rest + last) == first + rest + last;
    }
  }

  lemma {:induction false} ArgumentsMissing<V>(results: seq<Option<Result<V>>>, i: nat)
    requires i < |results| && results[i].None?
    ensures Arguments(results).None?
  {
    if i > 0 {
      ArgumentsMissing(results[1..], i - 1);
    }
  }

  /** A head that has set a result does not set another. */
  lemma SlotAfter<V>(s: State<V>, a: Action<V>, i: nat)
    requires Inv(s) && Enabled(s, a) && i < |s.heads|
    ensures |Step(s, a).results| == |s.results|
    ensures Step(s, a).results[i]
            == if a.SetResult? && a.i == i then Some(a.result) else s.results[i]
    ensures a.SetResult? && a.i == i ==> s.results[i] == None
  {
    assert SlotOk(s.heads[i], s.results[i]);
  }

  /** The result in a slot is the one that its head set, and no head sets two. */
  lemma {:induction false} ResultsAreFromHeads<V(!new)>(states: seq<State<V>>, actions: seq<Action<V>>, n: nat, k: nat, i: nat)
    requires IsRun(states, actions, n) && k < |states| && i < n
    ensures |states[k].results| == n
    ensures states[k].results[i].Some? ==> exists m | 0 <= m < k :: actions[m] == SetResult(i, states[k].results[i].value)
    ensures forall m | 0 <= m < k && actions[m].SetResult? && actions[m].i == i :: states[k].results[i] == Some(actions[m].result)
  {
    RunKeepsInv(states, actions, n, k);
    if k > 0 {
      ResultsAreFromHeads(states, actions, n, k - 1, i);
      RunKeepsInv(states, actions, n, k - 1);
      var s, a := states[k - 1], actions[k - 1];
      assert Enabled(s, a) && states[k] == Step(s, a);
      SlotAfter(s, a, i);
      hide Inv, IsRun, Step, Enabled;
      if a.SetResult? && a.i == i {
        assert actions[k - 1] == SetResult(i, states[k].results[i].value);
      }
    }
  }

  /** The step that takes the counter to zero dispatches the tail exactly if it
      is a completion, and then all results are there exactly if no head was
      dropped before. */
  lemma MissingExactlyWhenDropped<V(!new)>(states: seq<State<V>>, actions: seq<Action<V>>, n: nat, k: nat)
    requires IsRun(states, actions, n) && k < |actions|
    requires (actions[k].Complete? || actions[k].Drop?) && states[k + 1].pending == 0
    ensures var s' := states[k + 1];
            && (s'.dispatched != [] <==> actions[k].Complete?)
            && (actions[k].Complete? ==> (s'.dispatched[0].None? <==> HasDropped(s'.heads)))
  {
    RunKeepsInv(states, actions, n, k);
    RunKeepsInv(states, actions, n, k + 1);
    AliveWhilePointedTo(states, actions, n, k);
    var s, s', a := states[k], states[k + 1], actions[k];
    if HasDropped(s'.heads) {
      var i :| 0 <= i < |s'.heads| && s'.heads[i] == Dropped;
      assert SlotOk(s'.heads[i], s'.results[i]);
      ArgumentsMissing(s'.results, i);
    } else {
      forall i | 0 <= i < n
        ensures s'.results[i].Some?
      {
        PointersAfter(s'.heads, i, s'.heads[i]);
        assert SlotOk(s'.heads[i], s'.results[i]);
      }
      ArgumentsThere(s'.results);
    }
  }

  /** Two heads: one is dropped, then the other completes, and the tail is
      dispatched although a result is missing. */
  lemma DroppedHeadIsMissed<V(!new)>(result: Result<V>) returns (states: seq<State<V>>, actions: seq<Action<V>>)
    ensures IsRun(states, actions, 2) && |actions| == 3
    ensures states[3].dispatched == [None] && states[3].tail == Dispatching
  {
    var s0: State<V> := Start(2);
    var s1 := Step(s0, Drop(0));
    var s2 := Step(s1, SetResult(1, result));
    var s3 := Step(s2, Complete(1));
    states, actions := [s0, s1, s2, s3], [Drop(0), SetResult(1, result), Complete(1)];
    ArgumentsMissing(s2.results, 0);
  }

  /** The tail's own fields. A method says whether the object deletes itself, and
      with what it calls the tail before. */
  class CoinvokerTail<V> {
    var pending: int
    const results: array<Option<Result<V>>>

    constructor (n: nat)
      ensures fresh(results) && results.Length == n && pending == 0
      ensures forall i | 0 <= i < n :: results[i] == None
    {
      pending := 0;
      results := new Option<Result<V>>[n](i => None);
    }

    method Prime() returns (freed: bool, call: Option<Option<seq<V>>>)
      requires forall i | 0 <= i < results.Length :: results[i] == None
      modifies `pending
      ensures pending == if results.Length > 0 then results.Length else old(pending)
      ensures freed <==> Start<V>(results.Length).tail == Dispatching
      ensures call == if freed then Some(Start<V>(results.Length).dispatched[0]) else None
    {
      freed, call := false, None;
      if results.Length > 0 {
        pending := results.Length;
      } else {
        var arguments := Dispatch();
        freed, call := true, Some(arguments);
      }
    }

    /** All slots, in order, from the last to the first of the argument pack. */
    method Dispatch() returns (arguments: Option<seq<V>>)
      ensures arguments == Arguments(results[..])
    {
      arguments := Some([]);
      for i := results.Length downto 0
        invariant arguments == Arguments(results[i..])
      {
        assert results[i..][0] == results[i] && results[i..][1..] == results[i + 1..];
        arguments := if results[i].Some? && arguments.Some? then Some(results[i].value + arguments.value) else None;
      }
      assert results[0..] == results[..];
    }

    method StoreResult(i: nat, result: Result<V>)
      requires i < results.Length && results[i] == None
      modifies results
      ensures results[..] == old(results[..])[i := Some(result)]
    {
      results[i] := Some(result);
    }

    method CountDown() returns (freed: bool, call: Option<Option<seq<V>>>)
      modifies `pending
      ensures pending == old(pending) - 1 && (freed <==> pending == 0)
      ensures call == if freed then Some(Arguments(results[..])) else None
    {
      freed, call := false, None;
      pending := pending - 1;
      if pending == 0 {
        var arguments := Dispatch();
        freed, call := true, Some(arguments);
      }
    }

    method Release() returns (freed: bool)
      modifies `pending
      ensures pending == old(pending) - 1 && (freed <==> pending == 0)
    {
      pending := pending - 1;
      freed := pending == 0;
    }
  }
}
