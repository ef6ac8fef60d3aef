/** The transaction pool's store: txpool/txstore.go:72-194. */
module TxStores {
  import opened TxHeap

  datatype TxStatus = NotFound | Queued | Pending | Commited

  function HashSet(hashes: seq<Hash>): set<Hash>
  {
    set h | h in hashes
  }

  /** The popped hashes are distinct, in time order, and none is younger than one still queued. */
  ghost predicate PoppedOldest(times: map<Hash, int>, popped: seq<Hash>, queue: set<Hash>)
  {
    && (forall i :: 0 <= i < |popped| ==> popped[i] in times && popped[i] !in queue)
    && queue <= times.Keys
    && (forall i, j :: 0 <= i < j < |popped| ==> popped[i] != popped[j] && times[popped[i]] <= times[popped[j]])
    && (forall i, h :: 0 <= i < |popped| && h in queue ==> times[popped[i]] <= times[h])
  }

  lemma OldestNext(times: map<Hash, int>, popped: seq<Hash>, queue: set<Hash>, hash: Hash)
    requires PoppedOldest(times, popped, queue) && hash in queue
    requires forall h :: h in queue ==> times[hash] <= times[h]
    ensures PoppedOldest(times, popped + [hash], queue - {hash})
    ensures HashSet(popped + [hash]) == HashSet(popped) + {hash}
  {
    assert forall h :: h in popped + [hash] <==> h in popped || h == hash;
  }

  class TxStore {
    const txq: TxQueue
    var txItems: map<Hash, TxItem>

    /**
     The queue is a heap; every queued item is mapped under its own hash; an item's index is its slot,
     and -1 exactly when it is not queued.
     */
    ghost predicate Valid()
      reads this, txq, txq.pool
    {
      && txq.Valid()
      && (forall h :: h in txItems ==> txItems[h].hash == h && txItems[h] in txq.pool)
      && (forall x :: x in txq.items ==> x.hash in txItems && txItems[x.hash] == x)
      && (forall h :: h in txItems ==> (txItems[h].index == -1 <==> txItems[h] !in txq.items))
    }

    /** The hashes in the queue. */
    ghost function Queue(): set<Hash>
      reads this, txq
    {
      set x | x in txq.items :: x.hash
    }

    ghost function TimeOf(h: Hash): int
      reads this
      requires h in txItems
    {
      txItems[h].receivedTime
    }

    constructor ()
      ensures Valid() && txItems == map[] && Queue() == {} && fresh(txq) && fresh(txq.pool)
    {
      txq := new TxQueue();
      txItems := map[];
    }

    /** A hash is queued exactly when its item has a slot. */
    lemma QueuedIffInQueue(h: Hash)
      requires Valid() && h in txItems
      ensures h in Queue() <==> txItems[h].InQueue()
    {
    }

    /** txpool/txstore.go:86-96 */
    method AddNewTx(hash: Hash, now: int)
      requires Valid()
      modifies this, txq, txq.pool
      ensures Valid() && fresh(txq.pool - old(txq.pool))
      ensures hash in old(txItems) ==> txItems == old(txItems) && Queue() == old(Queue())
      ensures hash !in old(txItems) ==>
        && txItems.Keys == old(txItems).Keys + {hash} && TimeOf(hash) == now
        && Queue() == old(Queue()) + {hash}
      ensures forall h :: h in old(txItems) ==> h in txItems && txItems[h] == old(txItems)[h]
    {
      if hash in txItems {
        return;
      }
      var item := new TxItem(hash, now);
      txq.pool := txq.pool + {item};
      txq.Push(item);
      txItems := txItems[hash := item];
    }

    /** The oldest item leaves the queue; it stays in the pool. */
    method PopOne() returns (hash: Hash)
      requires Valid() && txq.items != []
      modifies txq`items, txq.pool`index
      ensures Valid() && hash in old(Queue()) && Queue() == old(Queue()) - {hash}
      ensures |txq.items| == |old(txq.items)| - 1
      ensures forall h :: h in old(Queue()) ==> h in txItems && TimeOf(hash) <= TimeOf(h)
    {
      var item := txq.Pop();
      hash := item.hash;
      QueueLess(txq.items, item, old(txq.items));
    }

    /**
     txpool/txstore.go:98-112: the min(len, max) oldest hashes in time order; the rest stays queued and
     none of it is older.
     */
    method PopTxsFromQueue(max: nat) returns (ret: seq<Hash>)
      requires Valid()
      modifies txq`items, txq.pool`index
      ensures Valid()
      ensures |ret| == if |old(txq.items)| < max then |old(txq.items)| else max
      ensures HashSet(ret) <= old(Queue()) && Queue() == old(Queue()) - HashSet(ret)
      ensures forall i, j :: 0 <= i < j < |ret| ==> ret[i] != ret[j]
      ensures forall h :: h in old(Queue()) ==> h in txItems
      ensures forall i, j :: 0 <= i < j < |ret| ==> TimeOf(ret[i]) <= TimeOf(ret[j])
      ensures forall i, h :: 0 <= i < |ret| && h in Queue() ==> TimeOf(ret[i]) <= TimeOf(h)
    {
      var count := if |txq.items| < max then |txq.items| else max;
      ret := PopCount(count, map h | h in txItems :: txItems[h].receivedTime);
    }

    /** The loop of popTxsFromQueue. */
    method PopCount(count: nat, ghost times: map<Hash, int>) returns (ret: seq<Hash>)
      requires Valid() && count <= |txq.items|
      requires times.Keys == txItems.Keys && forall h :: h in txItems ==> times[h] == TimeOf(h)
      modifies txq`items, txq.pool`index
      ensures Valid() && |ret| == count
      ensures Queue() == old(Queue()) - HashSet(ret) && HashSet(ret) <= old(Queue()) <= txItems.Keys
      ensures PoppedOldest(times, ret, Queue())
    {
      ret := [];
      QueueKnown();
      while |ret| < count
        invariant Valid() && |ret| <= count && |txq.items| == |old(txq.items)| - |ret|
        invariant Queue() == old(Queue()) - HashSet(ret) && HashSet(ret) <= old(Queue())
        invariant PoppedOldest(times, ret, Queue())
      {
        ghost var queue := Queue();
        var hash := PopOne();
        OldestNext(times, ret, queue, hash);
        ret := ret + [hash];
      }
    }

    lemma QueueKnown()
      requires Valid()
      ensures Queue() <= txItems.Keys
    {
    }

    /** txpool/txstore.go:126-130 for one hash. */
    method PutOne(hash: Hash)
      requires Valid()
      modifies txq`items, txq.pool`index
      ensures Valid() && Queue() == old(Queue()) + if hash in txItems then {hash} else {}
    {
      if hash in txItems && !txItems[hash].InQueue() {
        txq.Push(txItems[hash]);
      }
    }

    /** txpool/txstore.go:121-132 */
    method PutTxsToQueue(hashes: seq<Hash>)
      requires Valid()
      modifies txq`items, txq.pool`index
      ensures Valid() && Queue() == old(Queue()) + (HashSet(hashes) * txItems.Keys)
    {
      for i := 0 to |hashes|
        invariant Valid() && Queue() == old(Queue()) + (HashSet(hashes[..i]) * txItems.Keys)
      {
        assert hashes[..i + 1] == hashes[..i] + [hashes[i]];
        PutOne(hashes[i]);
      }
      assert hashes[..|hashes|] == hashes;
    }

    /** txpool/txstore.go:139-143 for one hash. */
    method PendOne(hash: Hash)
      requires Valid()
      modifies txq`items, txq.pool`index
      ensures Valid() && Queue() == old(Queue()) - {hash}
    {
      if hash in txItems && txItems[hash].InQueue() {
        assert txItems[hash] in txq.items;
        var item := txq.Remove(txItems[hash].index);
        QueueLess(txq.items, item, old(txq.items));
      }
    }

    /** txpool/txstore.go:134-145 */
    method SetTxsPending(hashes: seq<Hash>)
      requires Valid()
      modifies txq`items, txq.pool`index
      ensures Valid() && Queue() == old(Queue()) - HashSet(hashes)
    {
      for i := 0 to |hashes|
        invariant Valid() && Queue() == old(Queue()) - HashSet(hashes[..i])
      {
        assert hashes[..i + 1] == hashes[..i] + [hashes[i]];
        PendOne(hashes[i]);
      }
      assert hashes[..|hashes|] == hashes;
    }

    /** txpool/txstore.go:147-159 */
    method RemoveTxs(hashes: seq<Hash>)
      requires Valid()
      modifies this`txItems, txq`items, txq.pool`index
      ensures Valid() && Queue() == old(Queue()) - HashSet(hashes)
      ensures txItems == old(txItems) - HashSet(hashes)
    {
      for i := 0 to |hashes|
        invariant Valid() && Queue() == old(Queue()) - HashSet(hashes[..i])
        invariant txItems == old(txItems) - HashSet(hashes[..i])
      {
        assert hashes[..i + 1] == hashes[..i] + [hashes[i]];
        if hashes[i] in txItems {
          PendOne(hashes[i]);
          txItems := txItems - {hashes[i]};
        }
      }
      assert hashes[..|hashes|] == hashes;
    }

    /** txpool/txstore.go:172-184 */
    method GetTxStatus(hash: Hash) returns (status: TxStatus)
      requires Valid()
      ensures status == if hash in Queue() then Queued else if hash in txItems then Pending else NotFound
    {
      if hash !in txItems {
        return NotFound;
      }
      if txItems[hash].InQueue() {
        return Queued;
      }
      return Pending;
    }
  }

  /** Taking one item out of a queue without repeats takes exactly its hash out. */
  lemma QueueLess(items: seq<TxItem>, x: TxItem, before: seq<TxItem>)
    requires SameItems(items + [x], before)
    requires forall y :: y in before && y.hash == x.hash ==> y == x
    requires x !in items
    ensures (set y | y in items :: y.hash) == (set y | y in before :: y.hash) - {x.hash}
  {
    forall y | y in before && y != x
      ensures y in items
    {
      assert y in items + [x];
    }
    forall y | y in items
      ensures y in before && y.hash != x.hash
    {
      assert y in items + [x];
    }
  }
}
