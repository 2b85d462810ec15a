/** The services of an execution context. A service is constructed outside the
    lock, by any number of threads at once, and its constructor may ask for
    other services; the lock is only held to read the head of the list and to
    put a new service there. */
module Services {
  import opened Basics

  type Tid = nat
  type Key = nat
  type Obj = nat

  datatype Entry = Entry(obj: Obj, key: Key)

  /** A call of use_service or make_service that is constructing a service:
      `seen` is how many services were registered when it looked, and `obtained`
      are the services that the constructor has been given so far. */
  datatype Frame = Frame(key: Key, make: bool, seen: nat, obtained: set<Obj>)

  type Stack = seq<Frame>

  /** `registered` is the list read from its end, so that the head comes last.
      The history: objects discarded as duplicates, the services that calls
      returned, those that make_service created, and the keys it refused; and,
      for each object, what its constructor was given. */
  datatype System = System(
    registered: seq<Entry>,
    threads: seq<Stack>,
    created: nat,
    discarded: seq<Obj>,
    given: map<Obj, set<Obj>>,
    returned: seq<Entry>,
    made: seq<Entry>,
    refused: seq<Key>)

  datatype Action =
    | NewThread
    | Call(t: Tid, key: Key, make: bool)
    | Publish(t: Tid)
    | Throw(t: Tid)

  const START := System([], [], 0, [], map[], [], [], [])

  /** The walk along a stretch of the list, head first. */
  function Find(entries: seq<Entry>, key: Key): Option<Entry> {
    if entries == [] then None
    else
      var head := entries[|entries| - 1];
      if head.key == key then Some(head) else Find(entries[..|entries| - 1], key)
  }

  predicate Enabled(s: System, a: Action) {
    match a
    case NewThread => true
    case Call(t, _, _) => t < |s.threads|
    case Publish(t) => t < |s.threads| && s.threads[t] != [] && Top(s.threads[t]).seen <= |s.registered|
    case Throw(t) => t < |s.threads| && s.threads[t] != []
  }

  function Top(stack: Stack): Frame
    requires stack != []
  {
    stack[|stack| - 1]
  }

  function Drop(stack: Stack): Stack
    requires stack != []
  {
    stack[..|stack| - 1]
  }

  /** A constructor that made the call has obtained the service. */
  function Obtains(stack: Stack, obj: Obj): Stack {
    if stack == [] then stack
    else Drop(stack) + [Top(stack).(obtained := Top(stack).obtained + {obj})]
  }

  function With(s: System, t: Tid, stack: Stack): System
    requires t < |s.threads|
  {
    s.(threads := s.threads[t := stack])
  }

  /** The call of thread `t`, below which `stack` is left, found a service. */
  function Found(s: System, t: Tid, stack: Stack, make: bool, e: Entry): System
    requires t < |s.threads|
  {
    if make then With(s, t, stack).(refused := s.refused + [e.key])
    else With(s, t, Obtains(stack, e.obj)).(returned := s.returned + [e])
  }

  /** The object that the call has constructed is a duplicate. */
  function Discarded(s: System, f: Frame): System {
    s.(created := s.created + 1, given := s.given[s.created := f.obtained], discarded := s.discarded + [s.created])
  }

  /** The object that the call has constructed becomes the head of the list. */
  function Registered(s: System, f: Frame): System {
    var e := Entry(s.created, f.key);
    s.(created := s.created + 1, given := s.given[s.created := f.obtained],
       registered := s.registered + [e], returned := s.returned + [e], made := if f.make then s.made + [e] else s.made)
  }

  function Step(s: System, a: Action): System
    requires Enabled(s, a)
  {
    match a
    case NewThread => s.(threads := s.threads + [[]])
    case Call(t, key, make) =>
      (match Find(s.registered, key)
       case Some(e) => Found(s, t, s.threads[t], make, e)
       case None => With(s, t, s.threads[t] + [Frame(key, make, |s.registered|, {})]))
    case Publish(t) =>
      var f, rest := Top(s.threads[t]), Drop(s.threads[t]);
      (match Find(s.registered[f.seen..], f.key)
       case Some(e) => Found(Discarded(s, f), t, rest, f.make, e)
       case None => With(Registered(s, f), t, Obtains(rest, s.created)))
    case Throw(t) => With(s, t, Drop(s.threads[t]))
  }

  // ---- What every step keeps ----

  predicate Listed(entries: seq<Entry>, obj: Obj) {
    exists i | 0 <= i < |entries| :: entries[i].obj == obj
  }

  predicate HasKey(entries: seq<Entry>, key: Key) {
    exists i | 0 <= i < |entries| :: entries[i].key == key
  }

  /** No two services in the list have the same key. */
  predicate UniqueKeys(entries: seq<Entry>) {
    forall i, j | 0 <= i < j < |entries| :: entries[i].key != entries[j].key
  }

  /** A call that is under way saw no service with its key, and its constructor
      was given only services that are in the list. */
  predicate FrameOk(entries: seq<Entry>, f: Frame) {
    && f.seen <= |entries| && (forall i | 0 <= i < f.seen :: entries[i].key != f.key)
    && forall obj | obj in f.obtained :: Listed(entries, obj)
  }

  /** What a service's constructor was given is behind the service in the list. */
  predicate BehindIt(entries: seq<Entry>, given: map<Obj, set<Obj>>) {
    forall i | 0 <= i < |entries| :: entries[i].obj in given && GivenBefore(entries, i, given[entries[i].obj])
  }

  predicate GivenBefore(entries: seq<Entry>, i: nat, objects: set<Obj>)
    requires i < |entries|
  {
    forall obj | obj in objects :: Listed(entries[..i], obj)
  }

  /** Every object created is in the list or was discarded, once. */
  predicate ObjectsOk(s: System) {
    && (forall i, j | 0 <= i < j < |s.registered| :: s.registered[i].obj != s.registered[j].obj)
    && (forall i, j | 0 <= i < j < |s.discarded| :: s.discarded[i] != s.discarded[j])
    && (forall i | 0 <= i < |s.registered| :: s.registered[i].obj < s.created && s.registered[i].obj !in s.discarded)
    && (forall i | 0 <= i < |s.discarded| :: s.discarded[i] < s.created)
    && |s.registered| + |s.discarded| == s.created
  }

  predicate HistoryOk(s: System) {
    && (forall i | 0 <= i < |s.returned| :: s.returned[i] in s.registered)
    && (forall i | 0 <= i < |s.made| :: s.made[i] in s.registered)
    && UniqueKeys(s.made)
    && (forall i | 0 <= i < |s.refused| :: HasKey(s.registered, s.refused[i]))
  }

  predicate FramesOk(s: System) {
    forall t, i | 0 <= t < |s.threads| && 0 <= i < |s.threads[t]| :: FrameOk(s.registered, s.threads[t][i])
  }

  ghost predicate Inv(s: System) {
    UniqueKeys(s.registered) && BehindIt(s.registered, s.given) && ObjectsOk(s) && HistoryOk(s) && FramesOk(s)
  }

  lemma {:induction false} FindIsExact(entries: seq<Entry>, key: Key)
    ensures Find(entries, key).Some? <==> HasKey(entries, key)
    ensures Find(entries, key).Some? ==> Find(entries, key).value in entries && Find(entries, key).value.key == key
  {
    if entries != [] {
      var last := |entries| - 1;
      FindIsExact(entries[..last], key);
      if HasKey(entries, key) && entries[last].key != key {
        var i :| 0 <= i < |entries| && entries[i].key == key;
        assert entries[..last][i].key == key;
      }
    }
  }

  /** The walk skips what the call saw before, and misses nothing by it. */
  lemma NotSeenNotThere(entries: seq<Entry>, f: Frame)
    requires FrameOk(entries, f)
    ensures HasKey(entries, f.key) <==> HasKey(entries[f.seen..], f.key)
  {
    if HasKey(entries, f.key) {
      var i :| 0 <= i < |entries| && entries[i].key == f.key;
      assert entries[f.seen..][i - f.seen].key == f.key;
    }
    if HasKey(entries[f.seen..], f.key) {
      var i :| 0 <= i < |entries| - f.seen && entries[f.seen..][i].key == f.key;
      assert entries[f.seen + i].key == f.key;
    }
  }

  lemma ListedStays(entries: seq<Entry>, e: Entry, obj: Obj)
    requires Listed(entries, obj)
    ensures Listed(entries + [e], obj)
  {
    var i :| 0 <= i < |entries| && entries[i].obj == obj;
    assert (entries + [e])[i].obj == obj;
  }

  lemma FrameStays(entries: seq<Entry>, e: Entry, f: Frame)
    requires FrameOk(entries, f)
    ensures FrameOk(entries + [e], f)
  {
    forall obj | obj in f.obtained
      ensures Listed(entries + [e], obj)
    {
      ListedStays(entries, e, obj);
    }
  }

  /** The caller below obtains a service that is in the list. */
  lemma ObtainsKeepsFrames(entries: seq<Entry>, stack: Stack, obj: Obj)
    requires forall i | 0 <= i < |stack| :: FrameOk(entries, stack[i])
    requires Listed(entries, obj)
    ensures forall i | 0 <= i < |Obtains(stack, obj)| :: FrameOk(entries, Obtains(stack, obj)[i])
  {
  }

  lemma EntryIsListed(entries: seq<Entry>, e: Entry)
    requires e in entries
    ensures Listed(entries, e.obj) && HasKey(entries, e.key)
  {
    var i :| 0 <= i < |entries| && entries[i] == e;
  }

  lemma FoundKeepsFrames(s: System, t: Tid, stack: Stack, make: bool, e: Entry)
    requires FramesOk(s) && t < |s.threads| && e in s.registered
    requires stack == s.threads[t] || (s.threads[t] != [] && stack == Drop(s.threads[t]))
    ensures FramesOk(Found(s, t, stack, make, e))
  {
    EntryIsListed(s.registered, e);
    assert forall i | 0 <= i < |stack| :: stack[i] == s.threads[t][i];
    ObtainsKeepsFrames(s.registered, stack, e.obj);
  }

  lemma FoundKeepsInv(s: System, t: Tid, stack: Stack, make: bool, e: Entry)
    requires Inv(s) && t < |s.threads| && e in s.registered
    requires stack == s.threads[t] || (s.threads[t] != [] && stack == Drop(s.threads[t]))
    ensures Inv(Found(s, t, stack, make, e))
  {
    EntryIsListed(s.registered, e);
    FoundKeepsFrames(s, t, stack, make, e);
    hide UniqueKeys, BehindIt, FramesOk, HasKey;
  }

  lemma CallKeepsInv(s: System, t: Tid, key: Key, make: bool)
    requires Inv(s) && Enabled(s, Call(t, key, make))
    ensures Inv(Step(s, Call(t, key, make)))
  {
    FindIsExact(s.registered, key);
    if Find(s.registered, key).Some? {
      FoundKeepsInv(s, t, s.threads[t], make, Find(s.registered, key).value);
    }
  }

  /** A duplicate was registered meanwhile: the new object is discarded. */
  lemma DiscardKeepsInv(s: System, t: Tid)
    requires Inv(s) && Enabled(s, Publish(t))
    requires Find(s.registered[Top(s.threads[t]).seen..], Top(s.threads[t]).key).Some?
    ensures Inv(Step(s, Publish(t)))
  {
    var f := Top(s.threads[t]);
    FindIsExact(s.registered[f.seen..], f.key);
    DiscardedKeepsInv(s, f);
    hide Inv, Discarded, Found;
    FoundKeepsInv(Discarded(s, f), t, Drop(s.threads[t]), f.make, Find(s.registered[f.seen..], f.key).value);
  }

  lemma DiscardedKeepsInv(s: System, f: Frame)
    requires Inv(s)
    ensures Inv(Discarded(s, f)) && Discarded(s, f).threads == s.threads && Discarded(s, f).registered == s.registered
  {
    var given := Discarded(s, f).given;
    forall i | 0 <= i < |s.registered|
      ensures s.registered[i].obj in given && GivenBefore(s.registered, i, given[s.registered[i].obj])
    {
      assert s.registered[i].obj != s.created;
    }
    hide UniqueKeys, HistoryOk, FramesOk, GivenBefore;
  }

  /** No duplicate: the new service becomes the head of the list. */
  lemma RegisterKeepsInv(s: System, t: Tid)
    requires Inv(s) && Enabled(s, Publish(t))
    requires Find(s.registered[Top(s.threads[t]).seen..], Top(s.threads[t]).key).None?
    ensures Inv(Step(s, Publish(t)))
  {
    var f := Top(s.threads[t]);
    assert FrameOk(s.registered, f);
    FindIsExact(s.registered[f.seen..], f.key);
    NotSeenNotThere(s.registered, f);
    hide Inv, Registered;
    RegisteredKeepsInv(s, f);
    ObtainedKeepsInv(Registered(s, f), t, Drop(s.threads[t]), s.created);
  }

  lemma ObtainedKeepsInv(s: System, t: Tid, stack: Stack, obj: Obj)
    requires Inv(s) && t < |s.threads| && s.threads[t] != [] && stack == Drop(s.threads[t]) && Listed(s.registered, obj)
    ensures Inv(With(s, t, Obtains(stack, obj)))
  {
    assert forall i | 0 <= i < |stack| :: stack[i] == s.threads[t][i];
    ObtainsKeepsFrames(s.registered, stack, obj);
    hide UniqueKeys, BehindIt, ObjectsOk, HistoryOk, Obtains;
  }

  lemma RegisteredKeepsInv(s: System, f: Frame)
    requires Inv(s) && FrameOk(s.registered, f) && !HasKey(s.registered, f.key)
    ensures Inv(Registered(s, f)) && Registered(s, f).threads == s.threads && Listed(Registered(s, f).registered, s.created)
  {
    var e := Entry(s.created, f.key);
    NewKeyStaysUnique(s.registered, e);
    RegisterKeepsHistory(s, f, e);
    RegisterKeepsOrder(s.registered, s.given, e, f.obtained);
    RegisterKeepsObjects(s, f);
    RegisterKeepsFrames(s, e);
    assert (s.registered + [e])[|s.registered|].obj == e.obj;
    hide HistoryOk, BehindIt, UniqueKeys, HasKey, FramesOk, ObjectsOk;
  }

  lemma RegisterKeepsObjects(s: System, f: Frame)
    requires ObjectsOk(s)
    ensures ObjectsOk(Registered(s, f))
  {
  }

  lemma RegisterKeepsFrames(s: System, e: Entry)
    requires FramesOk(s)
    ensures FramesOk(s.(registered := s.registered + [e]))
  {
    forall u, i | 0 <= u < |s.threads| && 0 <= i < |s.threads[u]|
      ensures FrameOk(s.registered + [e], s.threads[u][i])
    {
      FrameStays(s.registered, e, s.threads[u][i]);
    }
  }

  lemma NewKeyStaysUnique(entries: seq<Entry>, e: Entry)
    requires UniqueKeys(entries) && !HasKey(entries, e.key)
    ensures UniqueKeys(entries + [e])
  {
  }

  lemma RegisterKeepsHistory(s: System, f: Frame, e: Entry)
    requires HistoryOk(s) && !HasKey(s.registered, e.key)
    ensures HistoryOk(s.(registered := s.registered + [e], returned := s.returned + [e],
                         made := if f.make then s.made + [e] else s.made))
  {
    forall i | 0 <= i < |s.made|
      ensures s.made[i].key != e.key
    {
      EntryIsListed(s.registered, s.made[i]);
    }
    forall i | 0 <= i < |s.refused|
      ensures HasKey(s.registered + [e], s.refused[i])
    {
      assert HasKey(s.registered, s.refused[i]);
      var j :| 0 <= j < |s.registered| && s.registered[j].key == s.refused[i];
      assert (s.registered + [e])[j].key == s.refused[i];
    }
  }

  lemma RegisterKeepsOrder(entries: seq<Entry>, given: map<Obj, set<Obj>>, e: Entry, obtained: set<Obj>)
    requires BehindIt(entries, given) && forall i | 0 <= i < |entries| :: entries[i].obj != e.obj
    requires forall obj | obj in obtained :: Listed(entries, obj)
    ensures BehindIt(entries + [e], given[e.obj := obtained])
  {
    forall i | 0 <= i < |entries + [e]|
      ensures (entries + [e])[i].obj in given[e.obj := obtained]
              && GivenBefore(entries + [e], i, given[e.obj := obtained][(entries + [e])[i].obj])
    {
      assert (entries + [e])[..i] == entries[..i];
      assert i == |entries| ==> entries[..i] == entries;
      assert i < |entries| ==> GivenBefore(entries, i, given[entries[i].obj]);
    }
  }

  lemma StepKeepsInv(s: System, a: Action)
    requires Inv(s) && Enabled(s, a)
    ensures Inv(Step(s, a))
  {
    match a
    case NewThread =>
    case Call(t, key, make) => CallKeepsInv(s, t, key, make);
    case Publish(t) =>
      if Find(s.registered[Top(s.threads[t]).seen..], Top(s.threads[t]).key).Some? {
        DiscardKeepsInv(s, t);
      } else {
        RegisterKeepsInv(s, t);
      }
    case Throw(t) =>
  }

  // ---- Whole runs ----

  ghost predicate IsRun(systems: seq<System>, actions: seq<Action>) {
    && |systems| == |actions| + 1 && systems[0] == START
    && forall n | 0 <= n < |actions| ::
         Enabled(systems[n], actions[n]) && systems[n + 1] == Step(systems[n], actions[n])
  }

  lemma {:induction false} RunKeepsInv(systems: seq<System>, actions: seq<Action>, n: nat)
    requires IsRun(systems, actions) && n < |systems|
    ensures Inv(systems[n])
  {
    if n > 0 {
      RunKeepsInv(systems, actions, n - 1);
      StepKeepsInv(systems[n - 1], actions[n - 1]);
    }
  }

  /** However threads race and constructors call back: there is never more than
      one service for a key, and all calls for a key return the same object. */
  lemma OneServicePerKey(systems: seq<System>, actions: seq<Action>, n: nat)
    requires IsRun(systems, actions) && n < |systems|
    ensures UniqueKeys(systems[n].registered)
    ensures var r := systems[n].returned;
            forall i, j | 0 <= i < |r| && 0 <= j < |r| && r[i].key == r[j].key :: r[i].obj == r[j].obj
  {
    RunKeepsInv(systems, actions, n);
  }

  /** make_service succeeds at most once for a key, and is refused only for a key
      that has a service. */
  lemma MadeAtMostOnce(systems: seq<System>, actions: seq<Action>, n: nat)
    requires IsRun(systems, actions) && n < |systems|
    ensures UniqueKeys(systems[n].made)
    ensures forall i | 0 <= i < |systems[n].refused| :: HasKey(systems[n].registered, systems[n].refused[i])
  {
    RunKeepsInv(systems, actions, n);
  }

  /** Every object that was constructed is in the list or was discarded, not both,
      and only once; so the context destroys each of them once. */
  lemma EachObjectOnce(systems: seq<System>, actions: seq<Action>, n: nat)
    requires IsRun(systems, actions) && n < |systems|
    ensures ObjectsOk(systems[n])
    ensures forall obj: Obj | obj < systems[n].created :: Listed(systems[n].registered, obj) <==> obj !in systems[n].discarded
  {
    RunKeepsInv(systems, actions, n);
    var s := systems[n];
    var all := seq(|s.registered|, i requires 0 <= i < |s.registered| => s.registered[i].obj) + s.discarded;
    forall obj: Obj | obj < s.created
      ensures Listed(s.registered, obj) <==> obj !in s.discarded
    {
      EveryNumberOccurs(all, obj);
      if obj in all && obj !in s.discarded {
        var i :| 0 <= i < |all| && all[i] == obj;
        assert s.registered[i].obj == obj;
      }
    }
  }

  /** Distinct numbers below the length of the list are all the numbers below it. */
  lemma EveryNumberOccurs(all: seq<nat>, k: nat)
    requires forall i, j | 0 <= i < j < |all| :: all[i] != all[j]
    requires forall i | 0 <= i < |all| :: all[i] < |all|
    requires k < |all|
    ensures k in all
  {
    Distinct(all);
    SubsetOfEqualSize(Elements(all), Below(|all|));
    assert k in Elements(all);
  }

  function Below(n: nat): (b: set<nat>)
    ensures |b| == n && forall k: nat :: k in b <==> k < n
  {
    if n == 0 then {} else Below(n - 1) + {n - 1}
  }

  lemma SubsetOfEqualSize(a: set<nat>, b: set<nat>)
    requires a <= b && |a| == |b|
    ensures a == b
  {
    assert b == a + (b - a);
  }

  /** A service that was obtained during the construction of another is further
      from the head of the list, and so it is shut down and destroyed later. */
  lemma GivenServicesOutlive(systems: seq<System>, actions: seq<Action>, n: nat, i: nat, obj: Obj)
    requires IsRun(systems, actions) && n < |systems| && i < |systems[n].registered|
    requires var e := systems[n].registered[i]; e.obj in systems[n].given && obj in systems[n].given[e.obj]
    ensures exists j | 0 <= j < i :: systems[n].registered[j].obj == obj
    ensures forall j | 0 <= j < |systems[n].registered| && systems[n].registered[j].obj == obj :: j < i
  {
    RunKeepsInv(systems, actions, n);
    var s := systems[n];
    assert GivenBefore(s.registered, i, s.given[s.registered[i].obj]);
    assert Listed(s.registered[..i], obj);
  }
}
