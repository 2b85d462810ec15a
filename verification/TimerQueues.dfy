/** The timer queue: a binary min-heap of waits whose entries point at
    timers, timers that remember their position in that heap, and a doubly
    linked list of the timers that have somebody waiting. */
module TimerQueues {
  import opened Durations
  import opened TimerSpec

  /** `~size_t(0)`: the heap index of a timer that is not in the heap. */
  const NO_INDEX: nat := 0xFFFF_FFFF_FFFF_FFFF

  class PerTimerData {
    var ops: seq<WaitOp>
    var heapIndex: nat
    var next: PerTimerData?
    var prev: PerTimerData?

    constructor ()
      ensures Idle() && heapIndex == NO_INDEX
    {
      ops, heapIndex, next, prev := [], NO_INDEX, null, null;
    }

    /** Nobody waits on this timer and no queue links to it. */
    ghost predicate Idle()
      reads `ops, `next, `prev
    {
      ops == [] && next == null && prev == null
    }
  }

  datatype HeapEntry = HeapEntry(expiry: Time, timer: PerTimerData)

  function Parent(i: nat): nat
    requires 0 < i
    ensures Parent(i) < i
  {
    (i - 1) / 2
  }

  /** Heap order everywhere, except on the edge from `i` up to its parent. */
  ghost predicate OrderedExceptAbove(h: seq<HeapEntry>, hole: nat) {
    && (forall i {:trigger Parent(i)} | 0 < i < |h| && i != hole :: h[Parent(i)].expiry <= h[i].expiry)
    && Bridged(h, hole)
  }

  /** Heap order everywhere, except on the edges from `hole` down to its children. */
  ghost predicate OrderedExceptBelow(h: seq<HeapEntry>, hole: nat) {
    && (forall i {:trigger Parent(i)} | 0 < i < |h| && Parent(i) != hole :: h[Parent(i)].expiry <= h[i].expiry)
    && Bridged(h, hole)
  }

  /** The parent of `hole` is no later than the children of `hole`. */
  ghost predicate Bridged(h: seq<HeapEntry>, hole: nat) {
    forall i {:trigger Parent(i)} | 0 < hole < i < |h| && Parent(i) == hole :: h[Parent(hole)].expiry <= h[i].expiry
  }

  ghost predicate Ordered(h: seq<HeapEntry>) {
    forall i {:trigger Parent(i)} | 0 < i < |h| :: h[Parent(i)].expiry <= h[i].expiry
  }

  lemma {:induction false} TopIsEarliest(h: seq<HeapEntry>, i: nat)
    requires Ordered(h) && i < |h|
    ensures h[0].expiry <= h[i].expiry
    decreases i
  {
    if i > 0 {
      TopIsEarliest(h, Parent(i));
    }
  }

  function Swapped(h: seq<HeapEntry>, i: nat, j: nat): seq<HeapEntry>
    requires i < |h| && j < |h|
  {
    h[i := h[j]][j := h[i]]
  }

  lemma SiftUpStep(h: seq<HeapEntry>, i: nat)
    requires 0 < i < |h| && OrderedExceptAbove(h, i) && h[i].expiry < h[Parent(i)].expiry
    ensures OrderedExceptAbove(Swapped(h, i, Parent(i)), Parent(i))
  {
    var g, p := Swapped(h, i, Parent(i)), Parent(i);
    forall k {:trigger Parent(k)} | 0 < k < |g| && k != p
      ensures g[Parent(k)].expiry <= g[k].expiry
    {
    }
    forall k {:trigger Parent(k)} | 0 < p < k < |g| && Parent(k) == p
      ensures g[Parent(p)].expiry <= g[k].expiry
    {
    }
  }

  /** `c` is a child of `i` that is not later than the other child. */
  ghost predicate IsMinChild(h: seq<HeapEntry>, i: nat, c: nat) {
    && i < c < |h| && Parent(c) == i
    && forall k {:trigger Parent(k)} | 0 < k < |h| && Parent(k) == i :: h[c].expiry <= h[k].expiry
  }

  lemma SiftDownStep(h: seq<HeapEntry>, i: nat, c: nat)
    requires i < |h| && OrderedExceptBelow(h, i) && IsMinChild(h, i, c) && h[c].expiry <= h[i].expiry
    ensures OrderedExceptBelow(Swapped(h, i, c), c)
  {
    var g := Swapped(h, i, c);
    forall k {:trigger Parent(k)} | 0 < k < |g| && Parent(k) != c
      ensures g[Parent(k)].expiry <= g[k].expiry
    {
    }
    forall k {:trigger Parent(k)} | 0 < c < k < |g| && Parent(k) == c
      ensures g[Parent(c)].expiry <= g[k].expiry
    {
    }
  }

  lemma LesserChild(h: seq<HeapEntry>, i: nat, c: nat)
    requires 2 * i + 1 < |h|
    requires c == if 2 * i + 2 == |h| || h[2 * i + 1].expiry < h[2 * i + 2].expiry then 2 * i + 1 else 2 * i + 2
    ensures IsMinChild(h, i, c)
  {
  }

  lemma SiftDownDone(h: seq<HeapEntry>, i: nat, c: nat)
    requires i < |h| && OrderedExceptBelow(h, i)
    requires 2 * i + 1 >= |h| || (IsMinChild(h, i, c) && h[i].expiry < h[c].expiry)
    ensures Ordered(h)
  {
  }

  /** Sifting the entry at `i`, up if it is earlier than its parent and down
      otherwise, will restore heap order. */
  ghost predicate Repairable(h: seq<HeapEntry>, i: nat) {
    && i < |h|
    && if i > 0 && h[i].expiry < h[Parent(i)].expiry then OrderedExceptAbove(h, i) else OrderedExceptBelow(h, i)
  }

  /** Moving the last entry into position `i` leaves one place to repair. */
  lemma ReplacedByLast(h: seq<HeapEntry>, i: nat)
    requires i + 1 < |h| && Ordered(h)
    ensures Repairable(Swapped(h, i, |h| - 1)[..|h| - 1], i)
  {
    var g := Swapped(h, i, |h| - 1)[..|h| - 1];
    if i > 0 {
      assert h[Parent(i)].expiry <= h[i].expiry;
    }
  }

  /** Only timers that can expire have a heap entry. */
  ghost predicate InHeap(expiries: map<PerTimerData, Time>, t: PerTimerData) {
    t in expiries && expiries[t] != MAX_TIME
  }

  class TimerQueue {
    var timers: PerTimerData?
    var heap: seq<HeapEntry>

    // The timers constructed for this queue and what the queue holds.
    ghost var registered: set<PerTimerData>
    ghost var waits: Waits<PerTimerData>

    // For the timers on the linked list, their expiry and a stamp that grows
    // with every activation.
    ghost var expiries: map<PerTimerData, Time>
    ghost var stamps: map<PerTimerData, nat>
    ghost var clock: nat

    constructor ()
      ensures Valid() && waits == map[] && registered == {}
    {
      timers, heap := null, [];
      registered, waits, expiries, stamps, clock := {}, map[], map[], map[], 0;
    }

    /** The timers with a stamp form one doubly linked list, newest first, and
        all other timers are unlinked. `ListedExactlyOnce` below says why these
        local conditions describe a whole list. */
    ghost predicate ListOk()
      reads `timers, `stamps, `clock, `registered, registered`next, registered`prev
    {
      && LinksOk() && MutualOk()
      && (forall t {:trigger t.prev} | t in registered && t !in stamps :: t.prev == null)
      && (forall t {:trigger t.next} | t in registered && t !in stamps :: t.next == null)
    }

    /** Links of listed timers stay on the list; next leads to older stamps. */
    ghost predicate LinksOk()
      reads `timers, `stamps, `clock, `registered, registered`next, registered`prev
    {
      && stamps.Keys <= registered
      && (timers != null ==> timers in stamps)
      && (forall t {:trigger stamps[t]} | t in stamps :: stamps[t] < clock && timers != null)
      && (forall t {:trigger t.prev} | t in stamps ::
            (t.prev == null <==> t == timers) && (t.prev != null ==> t.prev in stamps))
      && (forall t {:trigger t.next} | t in stamps && t.next != null ::
            t.next in stamps && stamps[t.next] < stamps[t])
    }

    ghost predicate MutualOk()
      requires stamps.Keys <= registered
      reads `stamps, `registered, registered`next, registered`prev
    {
      forall t, u {:trigger t.next, u.prev} | t in stamps && u in stamps :: t.next == u <==> u.prev == t
    }

    lemma {:induction false} HeadHasNext(t: PerTimerData)
      requires ListOk() && t in stamps && t != timers
      ensures timers.next != null
      decreases clock - stamps[t]
    {
      assert t.prev.next == t;
      if t.prev != timers {
        HeadHasNext(t.prev);
      }
    }

    /** The timers met by following `next` links from `t`. */
    ghost function ListFrom(t: PerTimerData?): (list: seq<PerTimerData>)
      requires ListOk() && (t != null ==> t in stamps)
      reads `timers, `stamps, `clock, `registered, registered`next, registered`prev
      ensures forall i | 0 <= i < |list| :: list[i] in stamps
      ensures t == null <==> list == []
      ensures t != null ==> list[0] == t && forall i | 0 <= i < |list| :: stamps[list[i]] <= stamps[t]
      decreases if t == null then 0 else stamps[t] + 1
    {
      if t == null then [] else [t] + ListFrom(t.next)
    }

    /** What the local conditions add up to: following the links from the head
        meets every active timer exactly once, most recently activated first,
        with `prev` the predecessor on that list. */
    lemma ListedExactlyOnce()
      requires ListOk()
      ensures forall t | t in registered :: t in stamps <==> t in ListFrom(timers)
      ensures Chain(ListFrom(timers)) && (timers != null ==> timers.prev == null)
    {
      forall t | t in stamps
        ensures t in ListFrom(timers)
      {
        ReachedFromHead(t);
      }
      ChainFrom(timers);
    }

    ghost predicate Chain(list: seq<PerTimerData>)
      requires forall i | 0 <= i < |list| :: list[i] in stamps && list[i] in registered
      reads `stamps, `registered, registered`next, registered`prev
    {
      && (forall i, j | 0 <= i < j < |list| :: stamps[list[j]] < stamps[list[i]])
      && (forall i {:trigger list[i].next} | 0 <= i < |list| :: list[i].next == if i + 1 < |list| then list[i + 1] else null)
      && (forall i {:trigger list[i].prev} | 0 < i < |list| :: list[i].prev == list[i - 1])
    }

    lemma {:induction false} ChainFrom(t: PerTimerData?)
      requires ListOk() && (t != null ==> t in stamps)
      ensures Chain(ListFrom(t))
      decreases if t == null then 0 else stamps[t] + 1
    {
      if t != null {
        ChainFrom(t.next);
        var rest := ListFrom(t.next);
        assert ListFrom(t) == [t] + rest;
        assert t.next != null ==> t.next.prev == t;
      }
    }

    lemma {:induction false} ReachedFromHead(t: PerTimerData)
      requires ListOk() && t in stamps
      ensures t in ListFrom(timers)
      decreases clock - stamps[t]
    {
      if t != timers {
        assert t.prev.next == t;
        ReachedFromHead(t.prev);
        NextIsListed(timers, t.prev);
      }
    }

    lemma {:induction false} NextIsListed(from: PerTimerData, t: PerTimerData)
      requires ListOk() && from in stamps && t in ListFrom(from) && t.next != null
      ensures t.next in ListFrom(from)
      decreases stamps[from]
    {
      if t != from {
        NextIsListed(from.next, t);
      }
    }

    /** Heap entries and the timers with an expiry point at each other. */
    ghost predicate IndexOk()
      reads `heap, `expiries, `registered, registered`heapIndex
    {
      && (forall i {:trigger heap[i]} | 0 <= i < |heap| ::
            && heap[i].timer in registered
            && InHeap(expiries, heap[i].timer)
            && heap[i].expiry == expiries[heap[i].timer]
            && heap[i].timer.heapIndex == i)
      && (forall t {:trigger t.heapIndex} | t in registered && InHeap(expiries, t) :: t.heapIndex < |heap|)
      && (forall t, i {:trigger t.heapIndex, heap[i]} | t in registered && InHeap(expiries, t) && 0 <= i < |heap| ::
            t.heapIndex == i ==> heap[i].timer == t)
    }

    lemma EntryOf(timer: PerTimerData)
      requires IndexOk() && timer in registered && InHeap(expiries, timer)
      ensures timer.heapIndex < |heap| && heap[timer.heapIndex].timer == timer
    {
    }

    ghost predicate Structure()
      reads `timers, `heap, `registered, `expiries, `stamps, `clock
      reads registered`heapIndex, registered`next, registered`prev
    {
      && ListOk() && IndexOk() && Ordered(heap)
      && |heap| < NO_INDEX
      && stamps.Keys == expiries.Keys && expiries.Keys <= registered
      && (forall t {:trigger t.heapIndex} | t in registered && t in expiries && !InHeap(expiries, t) :: t.heapIndex == NO_INDEX)
    }

    /** A timer is active exactly when somebody waits on it. */
    ghost predicate Valid()
      reads this, registered
    {
      && Structure()
      && waits.Keys == expiries.Keys
      && (forall t | t in waits :: waits[t].ops != [] && waits[t].expiry == expiries[t])
      && (forall t {:trigger t.ops} | t in registered :: t.ops == if t in waits then waits[t].ops else [])
    }

    /** The earliest expiry of any timer, or MAX_TIME when none will expire. */
    function Earliest(): Time
      reads this
    {
      if heap == [] then MAX_TIME else heap[0].expiry
    }

    lemma EarliestIsLeast()
      requires Valid()
      ensures forall t | t in waits :: Earliest() <= waits[t].expiry
      ensures heap != [] ==>
                var t := heap[0].timer; t in registered && t in waits && waits[t].expiry == Earliest() != MAX_TIME
      ensures heap == [] <==> forall t | t in waits :: waits[t].expiry == MAX_TIME
    {
      forall t | t in waits
        ensures Earliest() <= waits[t].expiry
      {
        if InHeap(expiries, t) {
          TopIsEarliest(heap, t.heapIndex);
        }
      }
    }

    /** The constant-time test "has a predecessor or is the head" is membership. */
    lemma LinkedIffActive(t: PerTimerData)
      requires Valid() && t in registered
      ensures t.prev != null || t == timers <==> t.ops != []
      ensures t.ops != [] <==> t in waits
    {
    }

    method NewTimer() returns (t: PerTimerData)
      requires Valid()
      modifies `registered
      ensures Valid() && fresh(t) && t.Idle()
      ensures registered == old(registered) + {t} && waits == old(waits)
    {
      t := new PerTimerData();
      registered := registered + {t};
    }

    method SwapHeap(i: nat, j: nat)
      requires IndexOk() && i < |heap| && j < |heap|
      modifies `heap, registered`heapIndex
      ensures IndexOk() && heap == Swapped(old(heap), i, j)
      ensures forall t | t in registered && !InHeap(expiries, t) :: t.heapIndex == old(t.heapIndex)
    {
      var tmp := heap[i];
      heap := heap[i := heap[j]];
      heap := heap[j := tmp];
      heap[i].timer.heapIndex := i;
      heap[j].timer.heapIndex := j;
    }

    method UpHeap(start: nat)
      requires IndexOk() && start < |heap| && OrderedExceptAbove(heap, start)
      modifies `heap, registered`heapIndex
      ensures IndexOk() && Ordered(heap) && |heap| == old(|heap|)
      ensures forall t | t in registered && !InHeap(expiries, t) :: t.heapIndex == old(t.heapIndex)
      ensures start > 0 ==>
                heap[0] == old(heap[0]) || (heap[0] == old(heap)[start] && heap[0].expiry < old(heap[0]).expiry)
    {
      var index: nat := start;
      while index > 0 && heap[index].expiry < heap[Parent(index)].expiry
        invariant index < |heap| == old(|heap|)
        invariant IndexOk() && OrderedExceptAbove(heap, index) && heap[index] == old(heap)[start]
        invariant if index > 0 then heap[0] == old(heap[0])
                  else start > 0 ==> heap[0].expiry < old(heap[0]).expiry
        invariant forall t | t in registered && !InHeap(expiries, t) :: t.heapIndex == old(t.heapIndex)
      {
        SiftUpStep(heap, index);
        SwapHeap(index, Parent(index));
        index := Parent(index);
      }
    }

    method DownHeap(start: nat)
      requires IndexOk() && start < |heap| && OrderedExceptBelow(heap, start)
      modifies `heap, registered`heapIndex
      ensures IndexOk() && Ordered(heap) && |heap| == old(|heap|)
      ensures forall t | t in registered && !InHeap(expiries, t) :: t.heapIndex == old(t.heapIndex)
    {
      hide IndexOk, Ordered, OrderedExceptBelow, IsMinChild;
      var index: nat := start;
      var child := index * 2 + 1;
      while child < |heap|
        invariant index < |heap| == old(|heap|) && child == index * 2 + 1
        invariant IndexOk() && OrderedExceptBelow(heap, index)
        invariant forall t | t in registered && !InHeap(expiries, t) :: t.heapIndex == old(t.heapIndex)
        decreases |heap| - index
      {
        var minChild := if child + 1 == |heap| || heap[child].expiry < heap[child + 1].expiry
                        then child else child + 1;
        LesserChild(heap, index, minChild);
        if heap[index].expiry < heap[minChild].expiry {
          SiftDownDone(heap, index, minChild);
          break;
        }
        SiftDownStep(heap, index, minChild);
        SwapHeap(index, minChild);
        index := minChild;
        child := index * 2 + 1;
      }
      if child >= |heap| {
        SiftDownDone(heap, index, child);
      }
    }

    method EnqueueTimer(t: Time, timer: PerTimerData, op: WaitOp) returns (first: bool)
      requires Valid() && timer in registered && op !in timer.ops
      requires |heap| + 1 < NO_INDEX
      modifies this, registered
      ensures Valid() && registered == old(registered)
      ensures waits == Enqueued(old(waits), timer, t, op)
      ensures waits.Keys == old(waits).Keys + {timer} && forall u | u in old(waits) && u != timer :: waits[u] == old(waits)[u]
      ensures timer.ops == waits[timer].ops == old(timer.ops) + [op]
      ensures waits[timer].expiry == if timer in old(waits) then old(waits)[timer].expiry else t
      ensures first <==> Earliest() < old(Earliest())
    {
      LinkedIffActive(timer);
      hide ListOk, IndexOk, Ordered;
      if timer.prev == null && timer != timers {
        Activate(t, timer);
      }
      PushOp(t, timer, op);
      first := timer.heapIndex == 0 && timer.ops[0] == op;
    }

    method PushOp(t: Time, timer: PerTimerData, op: WaitOp)
      requires Structure() && timer in registered && expiries.Keys == waits.Keys + {timer}
      requires expiries[timer] == if timer in waits then waits[timer].expiry else t
      requires forall u | u in waits :: waits[u].ops != [] && waits[u].expiry == expiries[u]
      requires forall u {:trigger u.ops} | u in registered :: u.ops == if u in waits then waits[u].ops else []
      modifies `waits, timer`ops
      ensures Valid() && waits == Enqueued(old(waits), timer, t, op)
      ensures timer.ops == old(timer.ops) + [op]
    {
      hide Structure;
      timer.ops := timer.ops + [op];
      waits := Enqueued(waits, timer, t, op);
    }

    /** Give an idle timer its place in the heap and put it on the list. */
    method Activate(t: Time, timer: PerTimerData)
      requires Structure() && timer in registered && timer !in expiries && |heap| + 1 < NO_INDEX
      modifies `heap, `expiries, `timers, `stamps, `clock
      modifies registered`heapIndex, registered`next, registered`prev
      ensures Structure() && expiries == old(expiries)[timer := t]
      ensures timer.heapIndex == 0 <==> Earliest() < old(Earliest())
    {
      hide ListOk, IndexOk, Ordered;
      if t == MAX_TIME {
        SkipHeap(timer);
      } else {
        PushHeap(t, timer);
      }
      LinkFront(timer);
    }

    /** A timer whose expiry is MAX_TIME is linked but gets no heap entry. */
    method SkipHeap(timer: PerTimerData)
      requires IndexOk() && timer in registered && timer !in expiries
      modifies `expiries, timer`heapIndex
      ensures IndexOk() && timer.heapIndex == NO_INDEX && expiries == old(expiries)[timer := MAX_TIME]
    {
      timer.heapIndex := NO_INDEX;
      expiries := expiries[timer := MAX_TIME];
    }

    method PushHeap(t: Time, timer: PerTimerData)
      requires IndexOk() && Ordered(heap) && timer in registered && timer !in expiries && t != MAX_TIME
      modifies `heap, `expiries, registered`heapIndex
      ensures IndexOk() && Ordered(heap) && |heap| == old(|heap|) + 1
      ensures expiries == old(expiries)[timer := t]
      ensures forall u | u in registered && !InHeap(expiries, u) :: u.heapIndex == old(u.heapIndex)
      ensures timer.heapIndex == 0 <==> Earliest() < old(Earliest())
    {
      AppendEntry(t, timer);
      hide IndexOk, Ordered, OrderedExceptAbove;
      UpHeap(|heap| - 1);
    }

    /** The new entry is last; only the edge above it may be out of order. */
    method AppendEntry(t: Time, timer: PerTimerData)
      requires IndexOk() && Ordered(heap) && timer in registered && timer !in expiries && t != MAX_TIME
      modifies `heap, `expiries, registered`heapIndex
      ensures heap == old(heap) + [HeapEntry(t, timer)] && expiries == old(expiries)[timer := t]
      ensures IndexOk() && OrderedExceptAbove(heap, |heap| - 1)
      ensures timer.heapIndex == |heap| - 1
      ensures forall u | u in registered && !InHeap(expiries, u) :: u.heapIndex == old(u.heapIndex)
    {
      timer.heapIndex := |heap|;
      heap := heap + [HeapEntry(t, timer)];
      expiries := expiries[timer := t];
    }

    method LinkFront(timer: PerTimerData)
      requires ListOk() && timer in registered && timer !in stamps
      modifies `timers, `stamps, `clock, registered`next, registered`prev
      ensures ListOk() && stamps == old(stamps)[timer := old(clock)]
    {
      assert timers != null ==> timers.prev == null;
      timer.next := timers;
      timer.prev := null;
      if timers != null {
        timers.prev := timer;
      }
      timers := timer;
      stamps, clock := stamps[timer := clock], clock + 1;
    }

    method RemoveFromHeap(timer: PerTimerData)
      requires IndexOk() && Ordered(heap) && timer in registered && |heap| < NO_INDEX
      requires timer in expiries && (InHeap(expiries, timer) || timer.heapIndex == NO_INDEX)
      modifies `heap, `expiries, registered`heapIndex
      ensures IndexOk() && Ordered(heap) && |heap| <= old(|heap|)
      ensures expiries == old(expiries) - {timer}
      ensures forall t | t in registered && !InHeap(old(expiries), t) :: t.heapIndex == old(t.heapIndex)
    {
      var index := timer.heapIndex;
      if |heap| > 0 && index < |heap| {
        if index == |heap| - 1 {
          PopBack();
        } else {
          SwapOut(timer);
          Repair(index);
        }
      } else {
        expiries := expiries - {timer};
      }
    }

    method SwapOut(timer: PerTimerData)
      requires IndexOk() && Ordered(heap) && timer in registered && InHeap(expiries, timer)
      requires timer.heapIndex + 1 < |heap|
      modifies `heap, `expiries, registered`heapIndex
      ensures IndexOk() && Repairable(heap, old(timer.heapIndex)) && |heap| == old(|heap|) - 1
      ensures expiries == old(expiries) - {timer}
      ensures forall t | t in registered && !InHeap(old(expiries), t) :: t.heapIndex == old(t.heapIndex)
    {
      hide IndexOk, Ordered, Repairable;
      EntryOf(timer);
      ReplacedByLast(heap, timer.heapIndex);
      SwapHeap(timer.heapIndex, |heap| - 1);
      PopBack();
    }

    method Repair(index: nat)
      requires IndexOk() && Repairable(heap, index)
      modifies `heap, registered`heapIndex
      ensures IndexOk() && Ordered(heap) && |heap| == old(|heap|)
      ensures forall t | t in registered && !InHeap(expiries, t) :: t.heapIndex == old(t.heapIndex)
    {
      if index > 0 && heap[index].expiry < heap[Parent(index)].expiry {
        UpHeap(index);
      } else {
        DownHeap(index);
      }
    }

    method PopBack()
      requires IndexOk() && heap != []
      modifies `heap, this`expiries
      ensures IndexOk() && heap == old(heap)[..|old(heap)| - 1]
      ensures expiries == old(expiries) - {old(heap)[|old(heap)| - 1].timer}
    {
      expiries := expiries - {heap[|heap| - 1].timer};
      heap := heap[..|heap| - 1];
    }

    /** A timer's neighbours on the list link back to it; a head without a next
        timer is alone. */
    lemma Neighbours(timer: PerTimerData)
      requires ListOk() && timer in stamps
      ensures timer.prev != null ==> timer.prev.next == timer && stamps[timer.prev] > stamps[timer]
      ensures timer.next != null ==> timer.next.prev == timer && stamps[timer.next] < stamps[timer]
      ensures timers == timer && timer.next == null ==> stamps.Keys == {timer}
    {
      if timers == timer && timer.next == null {
        forall t | t in stamps
          ensures t == timer
        {
          if t != timer { HeadHasNext(t); }
        }
      }
    }

    /** The timer is off the list, and its neighbours are linked to each other. */
    twostate predicate Unlinked(timer: PerTimerData)
      reads `timers, `stamps, `clock, `registered, registered`next, registered`prev
    {
      && registered == old(registered) && clock == old(clock) && stamps == old(stamps) - {timer}
      && timers == (if old(timers) == timer then old(timer.next) else old(timers))
      && (forall t {:trigger t.next} | t in registered ::
            t.next == if t == timer then null else if t == old(timer.prev) then old(timer.next) else old(t.next))
      && (forall t {:trigger t.prev} | t in registered ::
            t.prev == if t == timer then null else if t == old(timer.next) then old(timer.prev) else old(t.prev))
    }

    twostate predicate WasNeighbour(timer: PerTimerData)
    {
      && old(ListOk()) && timer in old(stamps)
      && (old(timer.prev) != null ==> old(timer.prev.next) == timer && old(stamps[timer.prev]) > old(stamps[timer]))
      && (old(timer.next) != null ==> old(timer.next.prev) == timer && old(stamps[timer.next]) < old(stamps[timer]))
      && (old(timers) == timer && old(timer.next) == null ==> old(stamps.Keys) == {timer})
    }

    twostate lemma UnlinkedKeepsLinks(timer: PerTimerData)
      requires WasNeighbour(timer) && Unlinked(timer)
      ensures LinksOk()
    {
    }

    twostate lemma UnlinkedKeepsMutual(timer: PerTimerData)
      requires WasNeighbour(timer) && Unlinked(timer)
      ensures stamps.Keys <= registered && MutualOk()
    {
    }

    twostate lemma UnlinkedKeepsList(timer: PerTimerData)
      requires WasNeighbour(timer) && Unlinked(timer) && LinksOk() && MutualOk()
      ensures ListOk()
    {
    }

    method RemoveFromList(timer: PerTimerData)
      requires ListOk() && timer in stamps
      modifies `timers, `stamps, registered`next, registered`prev
      ensures ListOk() && stamps == old(stamps) - {timer}
    {
      Neighbours(timer);
      hide ListOk;
      if timers == timer {
        timers := timer.next;
      }
      if timer.prev != null {
        timer.prev.next := timer.next;
      }
      if timer.next != null {
        timer.next.prev := timer.prev;
      }
      timer.next := null;
      timer.prev := null;
      stamps := stamps - {timer};
      UnlinkedKeepsLinks(timer);
      UnlinkedKeepsMutual(timer);
      UnlinkedKeepsList(timer);
    }

    /** Take a timer out of the heap, wherever it is in it, and out of the list. */
    method RemoveTimer(timer: PerTimerData)
      requires Structure() && timer in stamps
      modifies `heap, `expiries, `timers, `stamps
      modifies registered`heapIndex, registered`next, registered`prev
      ensures Structure() && |heap| <= old(|heap|)
      ensures expiries == old(expiries) - {timer} && stamps == old(stamps) - {timer}
    {
      hide ListOk, IndexOk, Ordered;
      RemoveFromHeap(timer);
      RemoveFromList(timer);
    }

    /** As `Valid`, while the waits of `timer` are being moved. */
    ghost predicate ValidBut(timer: PerTimerData)
      reads this, registered
    {
      && Structure() && timer in waits
      && waits.Keys == expiries.Keys
      && (forall t | t in waits :: waits[t].expiry == expiries[t] && waits[t].ops != [])
      && (forall t {:trigger t.ops} | t in registered && t != timer :: t.ops == if t in waits then waits[t].ops else [])
    }

    method DropTimer(timer: PerTimerData)
      requires ValidBut(timer) && timer.ops == []
      modifies `heap, `expiries, `timers, `stamps, `waits
      modifies registered`heapIndex, registered`next, registered`prev
      ensures Valid() && waits == old(waits) - {timer}
    {
      hide ListOk, IndexOk, Ordered;
      RemoveTimer(timer);
      waits := waits - {timer};
    }

    ghost method KeepTimer(timer: PerTimerData)
      requires ValidBut(timer) && timer.ops != []
      modifies `waits
      ensures Valid() && waits == old(waits)[timer := old(waits)[timer].(ops := timer.ops)]
    {
      waits := waits[timer := waits[timer].(ops := timer.ops)];
    }

    /** Take a timer off the queue together with everybody who waits on it. */
    method TakeTimer(timer: PerTimerData) returns (ops: seq<WaitOp>)
      requires Valid() && timer in waits
      modifies `heap, `expiries, `timers, `stamps, `waits
      modifies registered`heapIndex, registered`next, registered`prev, timer`ops
      ensures Valid() && waits == old(waits) - {timer} && ops == old(waits)[timer].ops
    {
      hide ListOk, IndexOk, Ordered;
      ops := timer.ops;
      timer.ops := [];
      DropTimer(timer);
    }

    method GetReadyTimers(now: Time, ops: seq<WaitOp>) returns (ready: seq<WaitOp>, ghost order: seq<PerTimerData>)
      requires Valid()
      modifies `heap, `expiries, `timers, `stamps, `waits, registered
      ensures Valid() && DueOrder(old(waits), now, order)
      ensures ready == ops + OpsOf(old(waits), order)
      ensures waits == old(waits) - Members(order)
      ensures forall u | u in waits :: waits[u].expiry == MAX_TIME || now < waits[u].expiry
      ensures forall u | u in old(waits) && u !in waits :: old(waits)[u].expiry != MAX_TIME && old(waits)[u].expiry <= now
    {
      hide Structure, Draining, DueOrder;
      ready, order := ops, [];
      DrainStart(waits, now);
      while heap != [] && !(now < heap[0].expiry)
        invariant Valid()
        invariant forall i | 0 <= i < |order| :: order[i] in old(waits)
        invariant Draining(old(waits), waits, now, order)
        invariant ready == ops + OpsOf(old(waits), order)
        decreases waits.Keys
      {
        EarliestIsLeast();
        DrainStep(old(waits), waits, now, order, heap[0].timer);
        OpsOfStep(old(waits), ops, order, heap[0].timer);
        order := order + [heap[0].timer];
        var taken := TakeTimer(heap[0].timer);
        ready := ready + taken;
      }
      EarliestIsLeast();
      DrainDone(old(waits), waits, now, order);
    }

    method CancelTimer(timer: PerTimerData, ops: seq<WaitOp>, max: nat) returns (out: seq<WaitOp>, any: bool)
      requires Valid() && timer in registered
      modifies `heap, `expiries, `timers, `stamps, `waits
      modifies registered`heapIndex, registered`next, registered`prev, timer`ops
      ensures Valid() && waits == AfterCancel(old(waits), timer, max)
      ensures out == ops + CanceledOps(old(waits), timer, max)
      ensures any <==> CancelCount(old(waits), timer, max) != 0
      ensures CancelsOldest(old(timer.ops), timer.ops, ops, out, max, any)
      ensures OnlyOpsChanged(old(waits), waits, timer, timer.ops)
    {
      LinkedIffActive(timer);
      ActiveOps(timer);
      hide Valid, CancelsOldest, OnlyOpsChanged, AfterCancel, CanceledOps, CancelCount, MarkCanceled;
      out, any := ops, false;
      if timer.prev != null || timer == timers {
        CancelTakesWaits(waits, timer, max);
        var num;
        out, num := TakeOldest(timer, ops, max);
        any := num != 0;
        Settle(timer);
      } else {
        CancelTakesNothing(waits, timer, max);
        CancelsNothing(ops, max);
      }
    }

    lemma ActiveOps(timer: PerTimerData)
      requires Valid() && timer in registered
      ensures timer.ops == if timer in waits then waits[timer].ops else []
    {
    }

    method TakeOldest(timer: PerTimerData, ops: seq<WaitOp>, max: nat) returns (out: seq<WaitOp>, num: nat)
      requires Valid() && timer in waits
      modifies timer`ops
      ensures ValidBut(timer)
      ensures num == if |old(timer.ops)| <= max then |old(timer.ops)| else max
      ensures timer.ops == old(timer.ops)[num..]
      ensures out == ops + MarkCanceled(old(timer.ops)[..num])
      ensures CancelsOldest(old(timer.ops), timer.ops, ops, out, max, num != 0)
    {
      assert timer in registered;
      hide Structure, MarkCanceled, CancelsOldest;
      out, num := PopCanceled(timer, ops, max);
    }

    /** A timer without waits leaves the queue. */
    method Settle(timer: PerTimerData)
      requires ValidBut(timer)
      modifies `heap, `expiries, `timers, `stamps, `waits
      modifies registered`heapIndex, registered`next, registered`prev
      ensures Valid()
      ensures waits == if timer.ops == [] then old(waits) - {timer} else old(waits)[timer := old(waits)[timer].(ops := timer.ops)]
    {
      hide Structure;
      if timer.ops == [] {
        DropTimer(timer);
      } else {
        KeepTimer(timer);
      }
    }

    /** Move up to `max` waits off a timer, oldest first, as cancelled. */
    method PopCanceled(timer: PerTimerData, ops: seq<WaitOp>, max: nat) returns (out: seq<WaitOp>, num: nat)
      modifies timer`ops
      ensures num == if |old(timer.ops)| <= max then |old(timer.ops)| else max
      ensures timer.ops == old(timer.ops)[num..]
      ensures out == ops + MarkCanceled(old(timer.ops)[..num])
      ensures CancelsOldest(old(timer.ops), timer.ops, ops, out, max, num != 0)
    {
      out, num := ops, 0;
      while num != max && timer.ops != []
        invariant num <= max && num <= |old(timer.ops)| && timer.ops == old(timer.ops)[num..]
        invariant out == ops + MarkCanceled(old(timer.ops)[..num])
        decreases |timer.ops|
      {
        out := out + [timer.ops[0].(ec := Canceled)];
        timer.ops := timer.ops[1..];
        num := num + 1;
      }
    }

    /** Empty the queue, timer by timer in list order. */
    method GetAllTimers(ops: seq<WaitOp>) returns (all: seq<WaitOp>, ghost listed: seq<PerTimerData>)
      requires Valid()
      modifies `heap, `expiries, `timers, `stamps, `waits
      modifies registered`next, registered`prev, registered`ops
      ensures Valid() && waits == map[]
      ensures listed == old(ListFrom(timers)) && Lists(old(waits), listed)
      ensures all == ops + OpsOf(old(waits), listed)
    {
      hide Valid, Structure, ListOk, Chain, Detached, ListFrom, OpsOf;
      AllAttached();
      NobodyYet(waits);
      listed := ListFrom(timers);
      ghost var k, done := 0, [];
      all := ops;
      while timers != null
        invariant k <= |listed| && (timers == null <==> k == |listed|) && Detached(listed, k, old(waits))
        invariant |done| == k && forall i | 0 <= i < k :: done[i] == listed[i]
        invariant forall i {:trigger done[i]} | 0 <= i < |done| :: done[i] in old(waits)
        invariant all == ops + OpsOf(old(waits), done)
        decreases |listed| - k
      {
        var taken := DetachHead(listed, k, old(waits));
        OpsOfStep(old(waits), ops, done, listed[k]);
        done := done + [listed[k]];
        all := all + taken;
        k := k + 1;
      }
      assert done == listed;
      Clear(listed, old(waits));
    }

    lemma AllAttached()
      requires Valid()
      ensures ListOk() && (timers != null ==> timers in stamps)
      ensures Detached(ListFrom(timers), 0, waits)
      ensures Lists(waits, ListFrom(timers))
      ensures timers == null <==> |ListFrom(timers)| == 0
    {
      hide IndexOk, Ordered, ListFrom;
      ListedExactlyOnce();
    }

    /** The first `k` timers of `list` have been taken off it. */
    ghost predicate Detached(list: seq<PerTimerData>, k: nat, w: Waits<PerTimerData>)
      reads `timers, `registered, registered`next, registered`prev, registered`ops
    {
      && k <= |list| && timers == (if k < |list| then list[k] else null)
      && (forall i {:trigger list[i] in w} | 0 <= i < |list| :: list[i] in w)
      && (forall t {:trigger t in list} | t in w :: t in list)
      && (forall i {:trigger list[i] in registered} | 0 <= i < |list| :: list[i] in registered)
      && (forall i, j | 0 <= i < j < |list| :: list[i] != list[j])
      && (forall i {:trigger list[i].next} | k <= i < |list| :: list[i].next == if i + 1 < |list| then list[i + 1] else null)
      && (forall i {:trigger list[i].ops} | k <= i < |list| :: list[i].ops == w[list[i]].ops)
      && (forall i | 0 <= i < k :: list[i].Idle())
      && (forall t | t in registered && t !in w :: t.Idle())
    }

    method DetachHead(ghost list: seq<PerTimerData>, ghost k: nat, ghost w: Waits<PerTimerData>) returns (ops: seq<WaitOp>)
      requires timers != null && Detached(list, k, w)
      modifies `timers, registered`next, registered`prev, registered`ops
      ensures k < |list| && list[k] in w && ops == w[list[k]].ops
      ensures Detached(list, k + 1, w) && (timers == null <==> k + 1 == |list|)
    {
      assert list[k] in registered && list[k] in w;
      assert list[k].next == (if k + 1 < |list| then list[k + 1] else null) && list[k].ops == w[list[k]].ops;
      var timer := timers;
      timers := timers.next;
      ops := timer.ops;
      timer.ops := [];
      timer.next := null;
      timer.prev := null;
    }

    method Clear(ghost list: seq<PerTimerData>, ghost w: Waits<PerTimerData>)
      requires Detached(list, |list|, w)
      modifies `heap, `expiries, `stamps, `waits
      ensures Valid() && waits == map[]
    {
      forall t | t in registered
        ensures t.Idle()
      {
        if t in w { assert t in list; }
      }
      heap := [];
      expiries, stamps, waits := map[], map[], map[];
    }

    predicate Empty()
      requires Valid()
      reads this, registered
      ensures Empty() <==> waits == map[]
    {
      assert forall t | t in waits :: t in stamps && stamps[t] < clock;
      timers == null
    }

    /** How long until the earliest expiry, but no longer than `max`. */
    function WaitDuration(now: Ticks, max: Ticks): (d: Ticks)
      requires Valid()
      reads this, registered
      ensures d <= max && NoLater(waits, now, d) && (d == max || Attained(waits, now, d))
    {
      EarliestIsLeast();
      if heap == [] then max
      else var d := SafeSubtract(heap[0].expiry as Ticks, now); if d < max then d else max
    }
  }
}
