/** The intrusive queue under everything else: operations are linked through a
    field of their own, and one queue is appended to another in constant time. */
module OpQueue {
  class Operation {
    var next: Operation?

    constructor ()
      ensures next == null
    {
      next := null;
    }
  }

  class Queue {
    var front: Operation?
    var back: Operation?
    ghost var contents: seq<Operation>

    /** Following the links from the front visits the contents, each once. */
    ghost predicate Valid()
      reads this, contents
    {
      && front == At(0)
      && back == (if contents == [] then null else contents[|contents| - 1])
      && Linked(contents)
      && Distinct(contents)
    }

    ghost function At(i: nat): Operation?
      reads this
    {
      if i < |contents| then contents[i] else null
    }

    constructor ()
      ensures Valid() && contents == []
    {
      front, back, contents := null, null, [];
    }

    method Front() returns (op: Operation?)
      requires Valid()
      ensures op == if contents == [] then null else contents[0]
    {
      op := front;
    }

    method Empty() returns (empty: bool)
      requires Valid()
      ensures empty <==> contents == []
    {
      empty := front == null;
    }

    method Pop()
      requires Valid()
      modifies this, if contents == [] then {} else {contents[0]}
      ensures Valid()
      ensures contents == if old(contents) == [] then [] else old(contents)[1..]
      ensures old(contents) != [] ==> old(contents)[0].next == null
    {
      if front != null {
        var op := front;
        front := op.next;
        if front == null {
          back := null;
        }
        op.next := null;
        contents := contents[1..];
      }
    }

    /** A client may push an operation that is in no queue. */
    method Push(op: Operation)
      requires Valid() && op !in contents
      modifies this, op, if contents == [] then {} else {contents[|contents| - 1]}
      ensures Valid() && contents == old(contents) + [op]
    {
      op.next := null;
      if back != null {
        back.next := op;
        back := op;
      } else {
        back := op;
        front := op;
      }
      contents := contents + [op];
    }

    /** All operations of the other queue follow, and that queue is empty. */
    method Splice(other: Queue)
      requires Valid() && other.Valid() && other != this
      requires forall op | op in contents :: op !in other.contents
      modifies this, other, if contents == [] then {} else {contents[|contents| - 1]}
      ensures Valid() && other.Valid()
      ensures contents == old(contents) + old(other.contents) && other.contents == []
    {
      assert contents != [] ==> contents[|contents| - 1] !in other.contents;
      if other.front != null {
        if back != null {
          back.next := other.front;
        } else {
          front := other.front;
        }
        back := other.back;
        ghost var n, both := |contents|, contents + other.contents;
        forall i {:trigger both[i].next} | 0 <= i < |both|
          ensures both[i].next == if i + 1 < |both| then both[i + 1] else null
        {
          assert i < n ==> both[i] == contents[i];
          assert i >= n ==> both[i] == other.contents[i - n] && both[i] in other.contents;
        }
        forall i, j | 0 <= i < j < |both|
          ensures both[i] != both[j]
        {
          assert i < n <= j ==> both[i] in contents && both[j] in other.contents;
        }
        contents := both;
        other.front := null;
        other.back := null;
        other.contents := [];
      } else {
        assert other.contents == [];
      }
    }

    /** What the destructor destroys, in order. */
    method DestroyAll() returns (destroyed: seq<Operation>)
      requires Valid()
      modifies this, contents
      ensures Valid() && contents == [] && destroyed == old(contents)
    {
      destroyed := [];
      while front != null
        invariant Valid() && |destroyed| <= |old(contents)|
        invariant destroyed == old(contents)[..|destroyed|] && contents == old(contents)[|destroyed|..]
        decreases |contents|
      {
        var op := front;
        Pop();
        destroyed := destroyed + [op];
      }
    }
  }

  ghost predicate Linked(ops: seq<Operation>)
    reads ops
  {
    forall i {:trigger ops[i].next} | 0 <= i < |ops| :: ops[i].next == if i + 1 < |ops| then ops[i + 1] else null
  }

  ghost predicate Distinct(ops: seq<Operation>) {
    forall i, j | 0 <= i < j < |ops| :: ops[i] != ops[j]
  }

  /** The queue of a valid object is determined by its front link: following the
      links leads to the same operations in the same order. */
  lemma {:induction false} LinksDetermineContents(a: seq<Operation>, b: seq<Operation>)
    requires Linked(a) && Linked(b) && a != [] && b != [] && a[0] == b[0]
    ensures a == b
    decreases |a|
  {
    assert a[0].next == if |a| > 1 then a[1] else null;
    assert b[0].next == if |b| > 1 then b[1] else null;
    if |a| > 1 {
      assert a[1..][0] == b[1..][0];
      Rest(a);
      Rest(b);
      LinksDetermineContents(a[1..], b[1..]);
      assert a == [a[0]] + a[1..] && b == [b[0]] + b[1..];
    }
  }

  lemma Rest(ops: seq<Operation>)
    requires Linked(ops) && ops != []
    ensures Linked(ops[1..])
  {
    forall i {:trigger ops[1..][i].next} | 0 <= i < |ops[1..]|
      ensures ops[1..][i].next == if i + 1 < |ops[1..]| then ops[1..][i + 1] else null
    {
      assert ops[i + 1].next == if i + 2 < |ops| then ops[i + 2] else null;
    }
  }
}
