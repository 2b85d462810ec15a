/** The linked list of services of an execution context, and the walks along it:
    to find a service, to announce a fork, to shut everything down, and to
    destroy it. A service is at the head when it is new, so every walk from the
    head meets a service before those its constructor was given. */
module ExecutionContexts {
  import opened Basics
  import S = Services

  datatype ForkEvent = Prepare | Parent | Child

  class Service {
    const obj: S.Obj
    const key: S.Key
    var next: Service?
    var isShutDown: bool

    constructor (obj: S.Obj, key: S.Key)
      ensures this.obj == obj && this.key == key && next == null && !isShutDown
    {
      this.obj, this.key, next, isShutDown := obj, key, null, false;
    }

    function Entry(): S.Entry {
      S.Entry(obj, key)
    }
  }

  function Reversed<T>(s: seq<T>): (r: seq<T>)
    ensures |r| == |s| && forall i | 0 <= i < |s| :: r[i] == s[|s| - 1 - i]
  {
    if s == [] then [] else Reversed(s[1..]) + [s[0]]
  }

  /** A chain of services as the protocol sees it: read from its end. */
  function Entries(chain: seq<Service>): (r: seq<S.Entry>)
    ensures |r| == |chain|
  {
    if chain == [] then [] else Entries(chain[1..]) + [chain[0].Entry()]
  }

  lemma {:induction false} EntriesHaveKey(chain: seq<Service>, key: S.Key)
    ensures S.HasKey(Entries(chain), key) <==> exists k | 0 <= k < |chain| :: chain[k].key == key
  {
    if chain != [] {
      EntriesHaveKey(chain[1..], key);
      var rest := Entries(chain[1..]);
      assert Entries(chain)[|rest|] == chain[0].Entry();
      assert forall i | 0 <= i < |rest| :: Entries(chain)[i] == rest[i];
      assert forall k | 0 < k < |chain| :: chain[k] == chain[1..][k - 1];
    }
  }

  /** What a call has not seen is in front of what it has. */
  lemma {:induction false} EntriesNotSeen(chain: seq<Service>, n: nat)
    requires n <= |chain|
    ensures Entries(chain)[n..] == Entries(chain[..|chain| - n])
  {
    if n < |chain| {
      EntriesNotSeen(chain[1..], n);
      assert chain[1..][..|chain| - 1 - n] == chain[..|chain| - n][1..];
    }
  }

  /** Those of the services, from place k on, that are not marked. */
  ghost function Unmarked(services: seq<Service>, marks: seq<bool>, k: nat): seq<Service>
    requires k <= |services| == |marks|
    decreases |services| - k
  {
    if k == |services| then [] else (if marks[k] then [] else [services[k]]) + Unmarked(services, marks, k + 1)
  }

  lemma UnmarkedStep(services: seq<Service>, marks: seq<bool>, k: nat, order: seq<Service>)
    requires k < |services| == |marks|
    ensures order + Unmarked(services, marks, k)
            == (if marks[k] then order else order + [services[k]]) + Unmarked(services, marks, k + 1)
  {
    var rest := Unmarked(services, marks, k + 1);
    if marks[k] {
      assert Unmarked(services, marks, k) == rest;
    } else {
      Regroup(order, [services[k]], rest);
    }
  }

  lemma UnmarkedEnd(services: seq<Service>, marks: seq<bool>)
    requires |services| == |marks|
    ensures Unmarked(services, marks, |services|) == []
  {
  }

  /** `order` are the unmarked services from place k on, at the places `at`: all of
      them, in list order, and no others. */
  ghost predicate Picks(services: seq<Service>, marks: seq<bool>, k: nat, order: seq<Service>, at: seq<nat>)
    requires |services| == |marks|
  {
    && |at| == |order| && (forall i | 0 <= i < |at| :: k <= at[i] < |services| && order[i] == services[at[i]])
    && (forall i, j | 0 <= i < j < |at| :: at[i] < at[j])
    && (forall i: nat | k <= i < |services| :: i in at <==> !marks[i])
  }

  lemma {:induction false} UnmarkedAt(services: seq<Service>, marks: seq<bool>, k: nat) returns (at: seq<nat>)
    requires k <= |services| == |marks|
    ensures Picks(services, marks, k, Unmarked(services, marks, k), at)
    decreases |services| - k
  {
    if k == |services| {
      at := [];
    } else {
      at := UnmarkedAt(services, marks, k + 1);
      if marks[k] {
        SkipFirst(services, marks, k, Unmarked(services, marks, k + 1), at);
        assert Unmarked(services, marks, k) == Unmarked(services, marks, k + 1);
      } else {
        PickFirst(services, marks, k, Unmarked(services, marks, k + 1), at);
        at := [k] + at;
      }
      hide Picks;
    }
  }

  lemma SkipFirst(services: seq<Service>, marks: seq<bool>, k: nat, order: seq<Service>, at: seq<nat>)
    requires k < |services| == |marks| && Picks(services, marks, k + 1, order, at) && marks[k]
    ensures Picks(services, marks, k, order, at)
  {
    assert k !in at;
  }

  lemma PickFirst(services: seq<Service>, marks: seq<bool>, k: nat, order: seq<Service>, at: seq<nat>)
    requires k < |services| == |marks| && Picks(services, marks, k + 1, order, at) && !marks[k]
    ensures Picks(services, marks, k, [services[k]] + order, [k] + at)
  {
  }

  class ExecutionContext {
    var first: Service?
    ghost var chain: seq<Service>

    /** The services from the head on are exactly those of `chain`, in order. */
    ghost predicate Valid()
      reads this, chain`next
    {
      && first == At(0)
      && (forall i {:trigger chain[i].next} | 0 <= i < |chain| :: chain[i].next == At(i + 1))
      && (forall i, j | 0 <= i < j < |chain| :: chain[i] != chain[j])
    }

    ghost function At(i: nat): Service?
      reads this
    {
      if i < |chain| then chain[i] else null
    }

    constructor ()
      ensures Valid() && chain == []
    {
      first, chain := null, [];
    }

    /** Walk from one place in the list up to another. */
    method Walk(from: Service?, until: Service?, key: S.Key, ghost i: nat, ghost j: nat) returns (found: Service?)
      requires Valid() && i <= j <= |chain| && from == At(i) && until == At(j)
      ensures found == null ==> forall k | i <= k < j :: chain[k].key != key
      ensures found != null ==> found.key == key && exists k | i <= k < j :: chain[k] == found
    {
      found := from;
      ghost var k := i;
      while found != until
        invariant i <= k <= j && found == At(k)
        invariant forall m | i <= m < k :: chain[m].key != key
        decreases j - k
      {
        if found.key == key {
          return;
        }
        found := found.next;
        k := k + 1;
      }
      found := null;
    }

    /** The locked end of use_service and make_service: unless a service with the
        same key was put in front of what the call has seen, the new one becomes
        the head. `n` is how many services the call has seen. */
    method Publish(service: Service, seen: Service?, ghost n: nat) returns (found: Service?)
      requires Valid() && service !in chain && n <= |chain| && seen == At(|chain| - n)
      modifies this, service
      ensures Valid()
      ensures found == null <==> S.Find(Entries(old(chain))[n..], service.key).None?
      ensures found == null ==> chain == [service] + old(chain) && Entries(chain) == Entries(old(chain)) + [service.Entry()]
      ensures found != null ==> chain == old(chain) && found in chain && found.key == service.key
    {
      found := Walk(first, seen, service.key, 0, |chain| - n);
      EntriesNotSeen(chain, n);
      EntriesHaveKey(chain[..|chain| - n], service.key);
      S.FindIsExact(Entries(chain)[n..], service.key);
      if found != null {
        ghost var k :| 0 <= k < |chain| - n && chain[k] == found;
        assert chain[..|chain| - n][k].key == service.key;
        return;
      }
      Prepend(service);
    }

    method Prepend(service: Service)
      requires Valid() && service !in chain
      modifies this, service
      ensures Valid() && chain == [service] + old(chain) && Entries(chain) == Entries(old(chain)) + [service.Entry()]
    {
      service.next := first;
      first := service;
      chain := [service] + chain;
      assert chain[1..] == old(chain);
    }

    method HasService(key: S.Key) returns (has: bool)
      requires Valid()
      ensures has <==> S.HasKey(Entries(chain), key)
    {
      var found := Walk(first, null, key, 0, |chain|);
      EntriesHaveKey(chain, key);
      has := found != null;
    }

    /** The services that will be told, in order: before a fork those registered
        last come first, after it those registered first. */
    method NotifyFork(event: ForkEvent) returns (told: seq<Service>)
      requires Valid()
      ensures told == if event == Prepare then chain else Reversed(chain)
    {
      var services: seq<Service> := [];
      var service := first;
      while service != null
        invariant |services| <= |chain| && service == At(|services|) && services == chain[..|services|]
        decreases |chain| - |services|
      {
        services := services + [service];
        service := service.next;
      }
      told := [];
      if event == Prepare {
        for i := 0 to |services|
          invariant told == services[..i]
        {
          told := told + [services[i]];
        }
      } else {
        for i := |services| downto 0
          invariant |told| == |services| - i
          invariant forall k | 0 <= k < |told| :: told[k] == services[|services| - 1 - k]
        {
          told := told + [services[i]];
        }
      }
    }

    lemma HeadIsFirst()
      requires Valid()
      ensures first == At(0)
    {
    }

    lemma LinkAt(k: nat)
      requires Valid() && k < |chain|
      ensures chain[k].next == At(k + 1) && forall i | k < i < |chain| :: chain[i] != chain[k]
    {
    }

    ghost function Marks(): (marks: seq<bool>)
      reads this, chain
      ensures |marks| == |chain| && forall i | 0 <= i < |chain| :: marks[i] == chain[i].isShutDown
    {
      seq(|chain|, i requires 0 <= i < |chain| reads this, chain => chain[i].isShutDown)
    }

    /** Shut down, from the head on, every service that has not been yet. */
    method ShutdownContext() returns (order: seq<Service>, ghost at: seq<nat>)
      requires Valid()
      modifies chain
      ensures Valid() && chain == old(chain) && order == Unmarked(chain, old(Marks()), 0)
      ensures Picks(chain, old(Marks()), 0, order, at)
      ensures forall i | 0 <= i < |chain| :: chain[i].isShutDown
    {
      hide Picks, Valid, Marks, Unmarked;
      UnmarkedEnd(chain, Marks());
      ghost var marks := Marks();
      order := [];
      at := UnmarkedAt(chain, marks, 0);
      HeadIsFirst();
      var service := first;
      ghost var k := 0;
      while service != null
        invariant k <= |chain| && service == At(k) && Valid()
        invariant forall i {:trigger chain[i].isShutDown} | 0 <= i < |chain| :: chain[i].isShutDown == (i < k || marks[i])
        invariant order + Unmarked(chain, marks, k) == Unmarked(chain, marks, 0)
        decreases |chain| - k
      {
        LinkAt(k);
        UnmarkedStep(chain, marks, k, order);
        if !service.isShutDown {
          service.isShutDown := true;
          order := order + [service];
        }
        service := service.next;
        k := k + 1;
      }
    }

    /** Destroy every service, from the head on. */
    method DestroyContext() returns (order: seq<Service>)
      requires Valid()
      modifies this
      ensures Valid() && chain == [] && first == null && order == old(chain)
    {
      order := [];
      while first != null
        invariant |order| <= |chain| && first == At(|order|) && order == chain[..|order|]
        invariant chain == old(chain)
        invariant forall i {:trigger chain[i].next} | 0 <= i < |chain| :: chain[i].next == At(i + 1)
        decreases |chain| - |order|
      {
        var service := first.next;
        order := order + [first];
        first := service;
      }
      chain := [];
    }
  }
}
