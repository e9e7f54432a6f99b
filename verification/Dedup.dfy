/** Deduplication queues: circular queues of the hashes of the payloads accepted last. */
module Dedup {

  /** The last `n` elements. */
  function LastN<T>(s: seq<T>, n: nat): seq<T> {
    if |s| <= n then s else s[|s| - n..]
  }

  /** A circular queue of the given capacity overwrites its oldest entry when it is full. */
  function Insert<T(==)>(q: seq<T>, capacity: nat, h: T): seq<T> {
    if h in q then q else LastN(q + [h], capacity)
  }

  function InsertAll<T(==)>(q: seq<T>, capacity: nat, hs: seq<T>): seq<T> {
    if hs == [] then q else Insert(InsertAll(q, capacity, hs[..|hs| - 1]), capacity, hs[|hs| - 1])
  }

  /** The hashes that are not reported as duplicates, out of all that are checked from the start. */
  function Accepted<T(==)>(capacity: nat, hs: seq<T>): seq<T> {
    if hs == [] then []
    else
      var prev, h := hs[..|hs| - 1], hs[|hs| - 1];
      Accepted(capacity, prev) + (if h in InsertAll([], capacity, prev) then [] else [h])
  }

  /** At all times the queue holds exactly the last `capacity` accepted hashes. */
  lemma {:induction false} QueueIsWindow<T>(capacity: nat, hs: seq<T>)
    ensures InsertAll([], capacity, hs) == LastN(Accepted(capacity, hs), capacity)
    decreases |hs|
  {
    if hs == [] {
    } else {
      var prev, h := hs[..|hs| - 1], hs[|hs| - 1];
      QueueIsWindow(capacity, prev);
      var acc := Accepted(capacity, prev);
      if h !in LastN(acc, capacity) {
        LastNOfOneMore(acc, capacity, h);
      } else {
        assert acc + [] == acc;
      }
    }
  }

  lemma LastNOfOneMore<T>(s: seq<T>, n: nat, h: T)
    ensures LastN(LastN(s, n) + [h], n) == LastN(s + [h], n)
  {
  }

  /** Any `capacity + 1` consecutive accepted hashes are pairwise distinct, in every run. */
  lemma {:induction false} AcceptedApart<T>(capacity: nat, hs: seq<T>, i: nat, j: nat)
    requires i < j < |Accepted(capacity, hs)| && j - i <= capacity
    ensures Accepted(capacity, hs)[i] != Accepted(capacity, hs)[j]
    decreases |hs|
  {
    var prev, h := hs[..|hs| - 1], hs[|hs| - 1];
    var acc := Accepted(capacity, prev);
    if j < |acc| {
      AcceptedApart(capacity, prev, i, j);
    } else {
      QueueIsWindow(capacity, prev);
      var w := LastN(acc, capacity);
      assert acc[i] == w[i - (|acc| - |w|)];
    }
  }

  class DedupQueue<T(==)> {
    const capacity: nat
    var queue: seq<T>
    ghost var checked: seq<T>

    ghost predicate Valid()
      reads this
    {
      queue == InsertAll([], capacity, checked)
    }

    constructor (capacity: nat)
      ensures Valid() && this.capacity == capacity && checked == []
    {
      this.capacity := capacity;
      queue, checked := [], [];
    }

    /** Report whether a hash is among the last accepted ones; if not, it becomes the newest of them. */
    method CheckAndInsert(h: T) returns (duplicate: bool)
      requires Valid()
      modifies this
      ensures Valid() && checked == old(checked) + [h]
      ensures duplicate <==> h in LastN(Accepted(capacity, old(checked)), capacity)
      ensures Accepted(capacity, checked) == Accepted(capacity, old(checked)) + (if duplicate then [] else [h])
    {
      QueueIsWindow(capacity, checked);
      ghost var before := checked;
      checked := checked + [h];
      assert checked[..|checked| - 1] == before;
      duplicate := h in queue;
      if !duplicate {
        queue := queue + [h];
        if |queue| > capacity {
          queue := queue[|queue| - capacity..];
        }
      }
    }
  }
}
