/** What several modules need: optional values, and how first-in-first-out
    queues compose over the steps of a run. */
module Basics {
  datatype Option<T> = None | Some(value: T)

  /** What went in is what came out followed by what is inside, and stays so. */
  lemma FifoStep<T>(entered: seq<T>, left: seq<T>, inside: seq<T>, more: seq<T>, out: seq<T>, inside': seq<T>)
    requires entered == left + inside && inside + more == out + inside'
    ensures entered + more == left + out + inside'
  {
    assert left + inside + more == left + (inside + more) == left + (out + inside');
  }

  lemma Regroup<T>(a: seq<T>, b: seq<T>, c: seq<T>)
    ensures a + b + c == a + (b + c)
  {
  }

  function Elements(all: seq<nat>): set<nat> {
    set i | 0 <= i < |all| :: all[i]
  }

  lemma {:induction false} Distinct(all: seq<nat>)
    requires forall i, j | 0 <= i < j < |all| :: all[i] != all[j]
    ensures |Elements(all)| == |all|
  {
    if all != [] {
      var last := |all| - 1;
      Distinct(all[..last]);
      assert Elements(all) == Elements(all[..last]) + {all[last]};
    }
  }
}
