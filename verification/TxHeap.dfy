/**
 The transaction queue: a binary heap of items that know their slot.
 txpool/txstore.go:14-70, with the sifting of Go's container/heap written out.
 */
module TxHeap {
  type Hash = string

  /** txpool/txstore.go:14-30; `index` is the slot in the queue, or -1. */
  class TxItem {
    const hash: Hash
    const receivedTime: int
    var index: int

    constructor (hash: Hash, receivedTime: int)
      ensures this.hash == hash && this.receivedTime == receivedTime && index == -1
    {
      this.hash, this.receivedTime, index := hash, receivedTime, -1;
    }

    predicate InQueue()
      reads this`index
    {
      index != -1
    }
  }

  function Parent(i: nat): nat
  {
    if i == 0 then 0 else (i - 1) / 2
  }

  /** Every item but the first was received no earlier than its parent, among the first `n`. */
  ghost predicate Ordered(q: seq<TxItem>, n: nat)
    requires n <= |q|
  {
    forall c :: 1 <= c < n ==> q[Parent(c)].receivedTime <= q[c].receivedTime
  }

  /** Ordered but for the step from `j` up; what hangs below `j` fits under `j`'s parent. */
  ghost predicate OrderedButUp(q: seq<TxItem>, n: nat, j: nat)
    requires n <= |q|
  {
    && (forall c :: 1 <= c < n && c != j ==> q[Parent(c)].receivedTime <= q[c].receivedTime)
    && (forall c :: 1 <= c < n && Parent(c) == j >= 1 ==> q[Parent(j)].receivedTime <= q[c].receivedTime)
  }

  /** Ordered but for the steps from `i` up and down; what hangs below `i` fits under `i`'s parent. */
  ghost predicate OrderedAround(q: seq<TxItem>, n: nat, i: nat)
    requires n <= |q|
  {
    && (forall c :: 1 <= c < n && c != i && Parent(c) != i ==> q[Parent(c)].receivedTime <= q[c].receivedTime)
    && (forall c :: 1 <= c < n && Parent(c) == i >= 1 ==> q[Parent(i)].receivedTime <= q[c].receivedTime)
  }

  /** The step from `i` up is in order. */
  ghost predicate FitsUp(q: seq<TxItem>, i: nat)
    requires i < |q|
  {
    i >= 1 ==> q[Parent(i)].receivedTime <= q[i].receivedTime
  }

  function Swapped(q: seq<TxItem>, i: nat, j: nat): seq<TxItem>
    requires i < |q| && j < |q|
  {
    q[i := q[j]][j := q[i]]
  }

  lemma SwappedSame(q: seq<TxItem>, i: nat, j: nat)
    requires i < |q| && j < |q|
    ensures SameItems(Swapped(q, i, j), q)
  {
    var r := Swapped(q, i, j);
    assert multiset(r) == multiset(q);
    assert forall x :: x in r ==> x in multiset(r);
    assert forall x :: x in q ==> x in multiset(q);
  }

  lemma SwappedTail(q: seq<TxItem>, i: nat, j: nat, n: nat)
    requires i < n <= |q| && j < n
    ensures Swapped(q, i, j)[n..] == q[n..]
  {
  }

  /** Putting the last item of a heap into slot `i` disturbs the order only around `i`. */
  lemma LastIntoSlot(q: seq<TxItem>, i: nat)
    requires i < |q| - 1 && Ordered(q, |q|)
    ensures OrderedAround(Swapped(q, i, |q| - 1), |q| - 1, i)
    ensures Swapped(q, i, |q| - 1)[|q| - 1] == q[i]
  {
    var n, r := |q| - 1, Swapped(q, i, |q| - 1);
    forall c | 1 <= c < n && Parent(c) == i >= 1
      ensures r[Parent(i)].receivedTime <= r[c].receivedTime
    {
      assert q[Parent(i)].receivedTime <= q[i].receivedTime <= q[c].receivedTime;
    }
  }

  lemma LastApart(q: seq<TxItem>)
    requires q != []
    ensures q[..|q| - 1] + [q[|q| - 1]] == q
  {
  }

  /** Moving an item up past an older-than-it parent keeps all else in order. */
  lemma UpStep(q: seq<TxItem>, n: nat, j: nat)
    requires n <= |q| && 1 <= j < n && OrderedButUp(q, n, j)
    requires q[j].receivedTime < q[Parent(j)].receivedTime
    ensures OrderedButUp(Swapped(q, Parent(j), j), n, Parent(j))
  {
  }

  lemma UpDone(q: seq<TxItem>, n: nat, j: nat)
    requires n <= |q| && j < n && OrderedButUp(q, n, j) && FitsUp(q, j)
    ensures Ordered(q, n)
  {
  }

  /** The smaller child of `i`, as the source picks it. */
  function SmallerChild(q: seq<TxItem>, n: nat, i: nat): nat
    requires n <= |q| && 2 * i + 1 < n
  {
    if 2 * i + 2 < n && q[2 * i + 2].receivedTime < q[2 * i + 1].receivedTime then 2 * i + 2 else 2 * i + 1
  }

  lemma DownStep(q: seq<TxItem>, n: nat, i: nat, j: nat)
    requires n <= |q| && 2 * i + 1 < n && OrderedAround(q, n, i) && j == SmallerChild(q, n, i)
    requires q[j].receivedTime < q[i].receivedTime
    ensures OrderedAround(Swapped(q, i, j), n, j) && FitsUp(Swapped(q, i, j), j) && FitsUp(Swapped(q, i, j), i)
  {
  }

  lemma DownDone(q: seq<TxItem>, n: nat, i: nat)
    requires n <= |q| && i < n && OrderedAround(q, n, i)
    requires 2 * i + 1 < n ==> q[SmallerChild(q, n, i)].receivedTime >= q[i].receivedTime
    ensures OrderedButUp(q, n, i)
  {
  }

  /** The first item of a heap is the oldest. */
  lemma {:induction false} FirstIsOldest(q: seq<TxItem>, n: nat, i: nat)
    requires n <= |q| && i < n && Ordered(q, n)
    ensures q[0].receivedTime <= q[i].receivedTime
  {
    if i > 0 {
      FirstIsOldest(q, n, Parent(i));
    }
  }

  class TxQueue {
    var items: seq<TxItem>
    ghost var pool: set<TxItem>  // all items the queue may hold

    ghost predicate Slots()
      reads this, pool
    {
      (forall x :: x in items ==> x in pool) && forall i :: 0 <= i < |items| ==> items[i].index == i
    }

    /** The queue is a heap and every slot is known to its item. */
    ghost predicate Valid()
      reads this, pool
    {
      Slots() && Ordered(items, |items|)
    }

    constructor ()
      ensures Valid() && items == [] && pool == {}
    {
      items, pool := [], {};
    }

    /** txpool/txstore.go:49-53 */
    method Swap(i: nat, j: nat)
      requires i < |items| && j < |items| && Slots()
      modifies this`items, pool`index
      ensures forall y :: y in pool && y !in old(items) ==> y.index == old(y.index)
      ensures items == Swapped(old(items), i, j) && Slots()
      ensures SameItems(items, old(items))
    {
      SwappedSame(items, i, j);
      items := items[i := items[j]][j := items[i]];
      items[i].index := i;
      items[j].index := j;
    }

    /** container/heap up; the heap is the first `n` slots. */
    method Up(j0: nat, ghost n: nat)
      requires j0 < n <= |items| && Slots() && OrderedButUp(items, n, j0)
      modifies this`items, pool`index
      ensures forall y :: y in pool && y !in old(items) ==> y.index == old(y.index)
      ensures Slots() && SameItems(items, old(items)) && items[n..] == old(items)[n..]
      ensures Ordered(items, n)
    {
      var j := j0;
      while true
        invariant 0 <= j <= j0
        invariant forall y :: y in pool && y !in old(items) ==> y.index == old(y.index)
        invariant Slots() && SameItems(items, old(items)) && items[n..] == old(items)[n..]
        invariant OrderedButUp(items, n, j)
        decreases j
      {
        var i := Parent(j);
        if i == j || !(items[j].receivedTime < items[i].receivedTime) {
          UpDone(items, n, j);
          break;
        }
        UpStep(items, n, j);
        Swap(i, j);
        j := i;
      }
    }

    /** One turn of the loop in container/heap down: the slot of the child swapped with, or `i`. */
    method DownOnce(i: nat, n: nat) returns (j: nat)
      requires i < n <= |items| && Slots() && OrderedAround(items, n, i)
      modifies this`items, pool`index
      ensures forall y :: y in pool && y !in old(items) ==> y.index == old(y.index)
      ensures Slots() && SameItems(items, old(items)) && items[n..] == old(items)[n..]
      ensures i <= j < n
      ensures j == i ==> items == old(items) && OrderedButUp(items, n, i)
      ensures j > i ==> OrderedAround(items, n, j) && FitsUp(items, j)
    {
      if 2 * i + 1 >= n {
        DownDone(items, n, i);
        return i;
      }
      j := SmallerChild(items, n, i);
      if !(items[j].receivedTime < items[i].receivedTime) {
        DownDone(items, n, i);
        return i;
      }
      DownStep(items, n, i, j);
      SwappedTail(items, i, j, n);
      Swap(i, j);
    }

    /** container/heap down on the first `n` slots; whether the item moved. */
    method Down(i0: nat, n: nat) returns (moved: bool)
      requires i0 < n <= |items| && Slots() && OrderedAround(items, n, i0)
      modifies this`items, pool`index
      ensures forall y :: y in pool && y !in old(items) ==> y.index == old(y.index)
      ensures Slots() && SameItems(items, old(items)) && items[n..] == old(items)[n..]
      ensures moved ==> Ordered(items, n)
      ensures !moved ==> items == old(items) && OrderedButUp(items, n, i0)
    {
      var i := DownOnce(i0, n);
      if i == i0 {
        return false;
      }
      moved := true;
      while true
        invariant i0 < i < n
        invariant forall y :: y in pool && y !in old(items) ==> y.index == old(y.index)
        invariant Slots() && SameItems(items, old(items)) && items[n..] == old(items)[n..]
        invariant OrderedAround(items, n, i) && FitsUp(items, i)
        decreases n - i
      {
        var j := DownOnce(i, n);
        if j == i {
          UpDone(items, n, i);
          break;
        }
        i := j;
      }
    }

    /** container/heap Push with txpool/txstore.go:55-60 */
    method Push(x: TxItem)
      requires Valid() && x in pool && x !in items
      modifies this`items, pool`index
      ensures forall y :: y in pool && y !in old(items) && y != x ==> y.index == old(y.index)
      ensures Valid() && SameItems(items, old(items) + [x])
    {
      x.index := |items|;
      items := items + [x];
      Up(|items| - 1, |items|);
    }

    /** txpool/txstore.go:62-70 */
    method PopLast() returns (x: TxItem)
      requires Slots() && items != []
      modifies this`items, pool`index
      ensures forall y :: y in pool && y !in old(items) ==> y.index == old(y.index)
      ensures x == old(items)[|old(items)| - 1] && items == old(items)[..|old(items)| - 1]
      ensures Slots() && x.index == -1
    {
      x := items[|items| - 1];
      x.index := -1;
      items := items[..|items| - 1];
    }

    /**
     The sifting of container/heap Remove, and of Pop for slot 0, from which moving up does nothing: the
     item in slot `i` ends up behind the heap.
     */
    method MoveToEnd(i: nat)
      requires Valid() && i < |items| - 1
      modifies this`items, pool`index
      ensures forall y :: y in pool && y !in old(items) ==> y.index == old(y.index)
      ensures Slots() && SameItems(items, old(items))
      ensures Ordered(items, |items| - 1) && items[|items| - 1] == old(items)[i]
    {
      var n := |items| - 1;
      LastIntoSlot(items, i);
      Swap(i, n);
      var moved := Down(i, n);
      if !moved {
        Up(i, n);
      }
      assert items[n] == items[n..][0];
    }

    /** container/heap Pop: an oldest item leaves the queue. */
    method Pop() returns (x: TxItem)
      requires Valid() && items != []
      modifies this`items, pool`index
      ensures forall y :: y in pool && y !in old(items) ==> y.index == old(y.index)
      ensures Valid() && SameItems(items + [x], old(items)) && x.index == -1
      ensures forall y :: y in old(items) ==> x.receivedTime <= y.receivedTime
    {
      OldestFirst(items);
      if |items| > 1 {
        MoveToEnd(0);
      }
      LastApart(items);
      x := PopLast();
    }

    /** container/heap Remove: the item in slot `i` leaves the queue. */
    method Remove(i: nat) returns (x: TxItem)
      requires Valid() && i < |items|
      modifies this`items, pool`index
      ensures forall y :: y in pool && y !in old(items) ==> y.index == old(y.index)
      ensures Valid() && x == old(items)[i] && SameItems(items + [x], old(items)) && x.index == -1
    {
      if i != |items| - 1 {
        MoveToEnd(i);
      }
      LastApart(items);
      x := PopLast();
    }
  }

  lemma OldestFirst(q: seq<TxItem>)
    requires q != [] && Ordered(q, |q|)
    ensures forall y :: y in q ==> q[0].receivedTime <= y.receivedTime
  {
    forall i | 0 <= i < |q|
      ensures q[0].receivedTime <= q[i].receivedTime
    {
      FirstIsOldest(q, |q|, i);
    }
  }

  /** The same items, in some order. */
  ghost predicate SameItems(a: seq<TxItem>, b: seq<TxItem>)
  {
    && multiset(a) == multiset(b)
    && |a| == |b|
    && (forall x :: x in a ==> x in b)
    && (forall x :: x in b ==> x in a)
  }
}
