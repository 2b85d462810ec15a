/** The contexts that a thread is inside of, innermost first: what decides
    whether a function may be dispatched inline. */
module CallStack {
  class Context<K, V> {
    const key: K
    const value: V
    const next: Context?<K, V>

    constructor (key: K, value: V, next: Context?<K, V>)
      ensures this.key == key && this.value == value && this.next == next
    {
      this.key, this.value, this.next := key, value, next;
    }
  }

  class ThreadStack<K(==), V> {
    var top: Context?<K, V>
    ghost var contexts: seq<Context<K, V>>

    ghost predicate Valid()
      reads this
    {
      && top == At(0)
      && forall i {:trigger contexts[i].next} | 0 <= i < |contexts| :: contexts[i].next == At(i + 1)
    }

    ghost function At(i: nat): Context?<K, V>
      reads this
    {
      if i < |contexts| then contexts[i] else null
    }

    constructor ()
      ensures Valid() && contexts == []
    {
      top, contexts := null, [];
    }

    /** The constructor of a context. */
    method Enter(key: K, value: V) returns (c: Context<K, V>)
      requires Valid()
      modifies this
      ensures Valid() && contexts == [c] + old(contexts) && c.key == key && c.value == value
    {
      c := new Context(key, value, top);
      top := c;
      contexts := [c] + contexts;
    }

    /** The destructor of a context, which was entered last. */
    method Leave(c: Context<K, V>)
      requires Valid() && contexts != [] && contexts[0] == c
      modifies this
      ensures Valid() && contexts == old(contexts)[1..]
    {
      top := c.next;
      contexts := contexts[1..];
    }

    /** The innermost context with this key, if the thread is inside one. */
    method Contains(key: K) returns (found: Context?<K, V>)
      requires Valid()
      ensures found == null <==> forall i | 0 <= i < |contexts| :: contexts[i].key != key
      ensures found != null ==>
                exists i | 0 <= i < |contexts| ::
                  contexts[i] == found && found.key == key && forall j | 0 <= j < i :: contexts[j].key != key
    {
      found := top;
      ghost var k := 0;
      while found != null
        invariant k <= |contexts| && found == At(k)
        invariant forall j | 0 <= j < k :: contexts[j].key != key
        decreases |contexts| - k
      {
        if found.key == key {
          return;
        }
        found := found.next;
        k := k + 1;
      }
    }
  }
}
