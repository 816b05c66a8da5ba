/**
 Tasks as the queues see them: opaque identifiers that are moved between
 containers and never inspected. Also the helpers the queue and pool models
 share: an optional result, sequence reversal, and the multiset of all tasks
 resident in a sequence of queues.
 */
module Tasks {

  /** A task is identified by an opaque number; its body is never run by the model. */
  type Task = nat

  /** The outcome of a `pop`/`steal`: `None` is the source's `false` return. */
  datatype Option<+T> = None | Some(value: T)

  /** `s` read from its last element to its first. */
  function Reverse(s: seq<Task>): (r: seq<Task>)
    ensures |r| == |s|
    ensures forall i :: 0 <= i < |s| ==> r[i] == s[|s| - 1 - i]
  {
    if s == [] then [] else Reverse(s[1..]) + [s[0]]
  }

  lemma ReverseInvolutive(s: seq<Task>)
    ensures Reverse(Reverse(s)) == s
  {
    var r := Reverse(Reverse(s));
    assert forall i :: 0 <= i < |s| ==> r[i] == s[i];
  }

  /** Every task occurs at most once. */
  ghost predicate NoDuplicates(m: multiset<Task>)
  {
    forall t :: m[t] <= 1
  }

  /** The multiset of all tasks resident in `qs`, where `contents` gives the tasks of one queue. */
  function Gather<Q>(qs: seq<Q>, contents: Q -> multiset<Task>): multiset<Task>
  {
    if qs == [] then multiset{} else Gather(qs[..|qs| - 1], contents) + contents(qs[|qs| - 1])
  }

  /**
   Replacing one queue changes the resident tasks by exactly the difference
   between the old and the new queue: no other queue's tasks appear or vanish.
   */
  lemma {:induction false} GatherUpdate<Q>(qs: seq<Q>, i: nat, q: Q, contents: Q -> multiset<Task>)
    requires i < |qs|
    ensures Gather(qs[i := q], contents) + contents(qs[i]) == Gather(qs, contents) + contents(q)
    decreases |qs|
  {
    var last := |qs| - 1;
    var qs' := qs[i := q];
    assert Gather(qs', contents) == Gather(qs'[..last], contents) + contents(qs'[last]);
    assert Gather(qs, contents) == Gather(qs[..last], contents) + contents(qs[last]);
    if i < last {
      assert qs'[..last] == qs[..last][i := q];
      assert qs[..last][i] == qs[i] && qs'[last] == qs[last];
      GatherUpdate(qs[..last], i, q, contents);
      var pre, pre', tail := Gather(qs[..last], contents), Gather(qs'[..last], contents), contents(qs[last]);
      assert pre' + contents(qs[i]) == pre + contents(q);
      assert Gather(qs', contents) + contents(qs[i]) == (pre' + contents(qs[i])) + tail;
    } else {
      assert qs'[..last] == qs[..last];
    }
  }

  /** A queue's tasks are part of the resident tasks of every sequence of queues it belongs to. */
  lemma {:induction false} GatherIncludes<Q>(qs: seq<Q>, i: nat, contents: Q -> multiset<Task>)
    requires i < |qs|
    ensures contents(qs[i]) <= Gather(qs, contents)
    decreases |qs|
  {
    if i < |qs| - 1 {
      GatherIncludes(qs[..|qs| - 1], i, contents);
    }
  }

  /** Sequences of queues that all hold nothing hold nothing together. */
  lemma {:induction false} GatherEmpty<Q>(qs: seq<Q>, contents: Q -> multiset<Task>)
    requires forall i :: 0 <= i < |qs| ==> contents(qs[i]) == multiset{}
    ensures Gather(qs, contents) == multiset{}
    decreases |qs|
  {
    if qs != [] {
      GatherEmpty(qs[..|qs| - 1], contents);
    }
  }

  /** Multiset addition cancels. */
  lemma Cancel(a: multiset<Task>, b: multiset<Task>, c: multiset<Task>)
    requires a + c == b + c
    ensures a == b
  {
    assert forall t :: a[t] == (a + c)[t] - c[t] == (b + c)[t] - c[t] == b[t];
  }

  /** Gathering a concatenation is the sum of both parts. */
  lemma {:induction false} GatherAppend<Q>(qs: seq<Q>, q: Q, contents: Q -> multiset<Task>)
    ensures Gather(qs + [q], contents) == Gather(qs, contents) + contents(q)
  {
    assert (qs + [q])[..|qs|] == qs;
  }
}
