/**
 Committing a block and pruning: consensus/hs_driver.go:88-140, consensus/state.go:51-147,
 txpool/txpool.go:150-162, 194-225, storage/storage.go:185-192.

 A block is its hash, height and transaction list.  Executing it is ExecutionIsSerial's business; here
 the execution is a function from the list handed to the executor to the errors of its transactions.
 */
module CommitGlue {
  import opened Options
  import opened TxHeap
  import opened TxStores

  datatype Blk = Blk(hash: Hash, height: nat, txs: seq<Hash>)

  predicate DistinctHashes(hashes: seq<Hash>)
  {
    forall i, j :: 0 <= i < j < |hashes| ==> hashes[i] != hashes[j]
  }

  /** The hashes in `stored`, or those outside it, in order. */
  function Select(hashes: seq<Hash>, stored: set<Hash>, inside: bool): seq<Hash>
  {
    if hashes == [] then [] else
    var k := |hashes| - 1;
    Select(hashes[..k], stored, inside) + if (hashes[k] in stored) == inside then [hashes[k]] else []
  }

  lemma {:induction false} SelectMembers(hashes: seq<Hash>, stored: set<Hash>, inside: bool)
    ensures forall h :: h in Select(hashes, stored, inside) <==> h in hashes && (h in stored) == inside
  {
    if hashes != [] {
      var k := |hashes| - 1;
      SelectMembers(hashes[..k], stored, inside);
      assert hashes == hashes[..k] + [hashes[k]];
    }
  }

  /** How many of the first `p` hashes are on the chosen side. */
  function ChosenBefore(hashes: seq<Hash>, stored: set<Hash>, inside: bool, p: nat): nat
    requires p <= |hashes|
  {
    if p == 0 then 0 else
    ChosenBefore(hashes, stored, inside, p - 1) + if (hashes[p - 1] in stored) == inside then 1 else 0
  }

  /** `list` holds the chosen hashes in the order, and as often, as they occur in `hashes`. */
  ghost predicate InOrder(list: seq<Hash>, hashes: seq<Hash>, stored: set<Hash>, inside: bool)
  {
    && |list| == ChosenBefore(hashes, stored, inside, |hashes|)
    && (forall p :: 0 <= p < |hashes| ==> PlacedAt(list, hashes, stored, inside, p))
  }

  ghost predicate PlacedAt(list: seq<Hash>, hashes: seq<Hash>, stored: set<Hash>, inside: bool, p: nat)
    requires p < |hashes|
  {
    (hashes[p] in stored) == inside ==>
      var c := ChosenBefore(hashes, stored, inside, p);
      c < |list| && list[c] == hashes[p]
  }

  lemma {:induction false} ChosenBeforePrefix(hashes: seq<Hash>, stored: set<Hash>, inside: bool, n: nat, p: nat)
    requires p <= n <= |hashes|
    ensures ChosenBefore(hashes[..n], stored, inside, p) == ChosenBefore(hashes, stored, inside, p)
  {
    if p > 0 {
      ChosenBeforePrefix(hashes, stored, inside, n, p - 1);
    }
  }

  /** A selection keeps the order of the list. */
  lemma {:induction false} SelectInOrder(hashes: seq<Hash>, stored: set<Hash>, inside: bool)
    ensures InOrder(Select(hashes, stored, inside), hashes, stored, inside)
  {
    if hashes != [] {
      var k := |hashes| - 1;
      var first := hashes[..k];
      var r := Select(first, stored, inside);
      SelectInOrder(first, stored, inside);
      ChosenBeforePrefix(hashes, stored, inside, k, k);
      forall p | 0 <= p < |hashes|
        ensures PlacedAt(Select(hashes, stored, inside), hashes, stored, inside, p)
      {
        if p < k {
          ChosenBeforePrefix(hashes, stored, inside, k, p);
          assert PlacedAt(r, first, stored, inside, p);
        }
      }
    }
  }

  /** The two selections split the list. */
  lemma {:induction false} SelectPartition(hashes: seq<Hash>, stored: set<Hash>)
    ensures multiset(Select(hashes, stored, true)) + multiset(Select(hashes, stored, false)) == multiset(hashes)
  {
    if hashes != [] {
      var k := |hashes| - 1;
      var h, first := hashes[k], hashes[..k];
      SelectPartition(first, stored);
      assert hashes == first + [h];
      var yes, no := Select(first, stored, true), Select(first, stored, false);
      if h in stored {
        assert Select(hashes, stored, true) == yes + [h] && Select(hashes, stored, false) == no + [];
        assert no + [] == no;
      } else {
        assert Select(hashes, stored, true) == yes + [] && Select(hashes, stored, false) == no + [h];
        assert yes + [] == yes;
      }
    }
  }

  lemma DistinctAppend(list: seq<Hash>, h: Hash)
    ensures DistinctHashes(list + [h]) <==> DistinctHashes(list) && h !in list
  {
    var all := list + [h];
    if DistinctHashes(all) {
      assert forall i, j :: 0 <= i < j < |list| ==> all[i] == list[i] && all[j] == list[j];
      assert forall i :: 0 <= i < |list| ==> all[i] == list[i] && all[i] != all[|list|];
    }
  }

  /** No hash on the chosen side occurs twice. */
  ghost predicate ChosenOnce(hashes: seq<Hash>, stored: set<Hash>, inside: bool)
  {
    forall i, j :: 0 <= i < j < |hashes| && (hashes[i] in stored) == inside ==> hashes[i] != hashes[j]
  }

  lemma ChosenOnceAppend(list: seq<Hash>, h: Hash, stored: set<Hash>, inside: bool)
    ensures ChosenOnce(list + [h], stored, inside) <==>
      ChosenOnce(list, stored, inside) && !(h in list && (h in stored) == inside)
  {
    var all := list + [h];
    if ChosenOnce(all, stored, inside) {
      assert forall i, j :: 0 <= i < j < |list| ==> all[i] == list[i] && all[j] == list[j];
      assert forall i :: 0 <= i < |list| ==> all[i] == list[i] && all[|list|] == h;
    }
  }

  /** A list selected from is repeated in exactly where the list itself repeats a selected hash. */
  lemma {:induction false} SelectDistinctIff(hashes: seq<Hash>, stored: set<Hash>, inside: bool)
    ensures DistinctHashes(Select(hashes, stored, inside)) <==> ChosenOnce(hashes, stored, inside)
  {
    if hashes != [] {
      var k := |hashes| - 1;
      var h, first := hashes[k], hashes[..k];
      var r := Select(first, stored, inside);
      SelectDistinctIff(first, stored, inside);
      SelectMembers(first, stored, inside);
      assert hashes == first + [h];
      ChosenOnceAppend(first, h, stored, inside);
      if (h in stored) == inside {
        assert Select(hashes, stored, inside) == r + [h];
        DistinctAppend(r, h);
      } else {
        assert Select(hashes, stored, inside) == r + [];
        assert r + [] == r;
      }
    }
  }

  /** Each transaction occurs in at most one executed list, and once there. */
  ghost predicate AtMostOnce(executed: seq<seq<Hash>>)
  {
    && (forall i :: 0 <= i < |executed| ==> DistinctHashes(executed[i]))
    && (forall i, j, h :: 0 <= i < j < |executed| && h in executed[i] ==> h !in executed[j])
  }

  /** The stored transactions are those of the executed lists, and no two lists share one. */
  ghost predicate ExecutedOnce(executed: seq<seq<Hash>>, stored: set<Hash>)
  {
    && (forall h :: h in stored <==> exists i :: 0 <= i < |executed| && h in executed[i])
    && (forall i, j, h :: 0 <= i < j < |executed| && h in executed[i] ==> h !in executed[j])
  }

  class Driver {
    const pool: TxStore
    // consensus/state.go
    var blocks: map<Hash, Blk>
    var commited: set<Hash>
    var qcs: set<Hash>
    var commitedHeight: nat
    var commitedTxCount: nat
    // storage
    var storedBlocks: map<Hash, Blk>
    var lastQC: Option<Hash>          // the block the stored certificate is for
    var storedTxs: set<Hash>
    var txCommits: map<Hash, string>  // the error of each executed transaction
    var executed: seq<seq<Hash>>      // the transactions executed by each commit

    ghost predicate Keyed()
      reads this`blocks
    {
      forall h :: h in blocks ==> blocks[h].hash == h
    }

    /** What is stored is what was executed, in one commit only. */
    ghost predicate Recorded()
      reads this`storedBlocks, this`storedTxs, this`txCommits, this`executed
    {
      && txCommits.Keys == storedTxs
      && (forall h :: h in storedBlocks ==> storedBlocks[h].hash == h)
      && ExecutedOnce(executed, storedTxs)
    }

    ghost predicate Core()
      reads this, pool, pool.txq, pool.txq.pool
    {
      pool.Valid() && Keyed() && Recorded() && commited <= storedBlocks.Keys
    }

    /** Besides, the pool holds nothing that is stored. */
    ghost predicate Valid()
      reads this, pool, pool.txq, pool.txq.pool
    {
      Core() && pool.txItems.Keys !! storedTxs
    }

    constructor ()
      ensures Valid() && executed == [] && fresh(pool) && fresh(pool.txq) && fresh(pool.txq.pool)
    {
      pool := new TxStore();
      blocks, commited, qcs, commitedHeight, commitedTxCount := map[], {}, {}, 0, 0;
      storedBlocks, lastQC, storedTxs, txCommits, executed := map[], None, {}, map[], [];
    }

    /** consensus/state.go:57-68 */
    method GetBlock(hash: Hash) returns (blk: Option<Blk>)
      requires Valid()
      modifies this`blocks
      ensures Valid() && blk == Found(hash) && Found(hash) == old(Found(hash))
      ensures blocks == if hash in old(blocks) || blk.None? then old(blocks) else old(blocks)[hash := blk.value]
    {
      if hash in blocks {
        return Some(blocks[hash]);
      }
      if hash !in storedBlocks {
        return None;
      }
      blocks := blocks[hash := storedBlocks[hash]];
      return Some(storedBlocks[hash]);
    }

    /** What getBlock answers. */
    function Found(hash: Hash): Option<Blk>
      reads this
    {
      if hash in blocks then Some(blocks[hash])
      else if hash in storedBlocks then Some(storedBlocks[hash])
      else None
    }

    /** consensus/state.go:51-55 */
    method SetBlock(blk: Blk)
      requires Valid()
      modifies this`blocks
      ensures Valid() && blocks == old(blocks)[blk.hash := blk]
    {
      blocks := blocks[blk.hash := blk];
    }

    /**
     txpool/txpool.go:150-162: a stored transaction is not taken up again.  `validated` and `verified` are
     the answers of tx.Validate and of VerifyTx.
     */
    method AddNewTx(hash: Hash, now: int, validated: Option<string>, verified: Option<string>)
      returns (err: Option<string>)
      requires Valid()
      modifies pool, pool.txq, pool.txq.pool
      ensures Valid() && fresh(pool.txq.pool - old(pool.txq.pool))
      ensures err.Some? <==> validated.Some? || (hash !in storedTxs && verified.Some?)
      ensures err.Some? ==> err == validated || (validated.None? && err == verified)
      ensures pool.txItems.Keys ==
        old(pool.txItems.Keys) + if err.Some? || hash in storedTxs then {} else {hash}
      ensures forall h :: h in old(pool.txItems) ==> pool.txItems[h] == old(pool.txItems)[h]
      ensures if err.Some? || hash in storedTxs || hash in old(pool.txItems)
        then pool.Queue() == old(pool.Queue())
        else pool.Queue() == old(pool.Queue()) + {hash} && pool.TimeOf(hash) == now
    {
      if validated.Some? {
        return validated;
      }
      if hash in storedTxs {
        return None;
      }
      if verified.Some? {
        return verified;
      }
      pool.AddNewTx(hash, now);
      return None;
    }

    /** txpool/txpool.go:194-214; `None` is the fatal stop on a transaction the pool does not have. */
    method GetTxsToExecute(hashes: seq<Hash>) returns (r: Option<(seq<Hash>, seq<Hash>)>)
      requires Valid()
      modifies pool.txq`items, pool.txq.pool`index
      ensures Valid()
      ensures r.None? <==> exists h :: h in hashes && h !in storedTxs && h !in pool.txItems
      ensures r.Some? ==> r.value.0 == Select(hashes, storedTxs, false) && r.value.1 == Select(hashes, storedTxs, true)
      ensures r.Some? ==>
        InOrder(r.value.0, hashes, storedTxs, false) && InOrder(r.value.1, hashes, storedTxs, true)
      ensures r.Some? ==> pool.Queue() == old(pool.Queue()) - HashSet(hashes)
    {
      var txs: seq<Hash>, old': seq<Hash> := [], [];
      for i := 0 to |hashes|
        invariant txs == Select(hashes[..i], storedTxs, false) && old' == Select(hashes[..i], storedTxs, true)
        invariant forall k :: 0 <= k < i ==> hashes[k] in storedTxs || hashes[k] in pool.txItems
      {
        assert hashes[..i + 1][..i] == hashes[..i];
        if hashes[i] in storedTxs {
          old' := old' + [hashes[i]];
        } else if hashes[i] in pool.txItems {
          txs := txs + [hashes[i]];
        } else {
          assert hashes[i] in hashes;
          return None;
        }
      }
      assert hashes[..|hashes|] == hashes;
      pool.SetTxsPending(hashes);
      SelectInOrder(hashes, storedTxs, false);
      SelectInOrder(hashes, storedTxs, true);
      return Some((txs, old'));
    }

    /** txpool/txpool.go:216-225: a stored transaction is reported committed, whatever the pool was told. */
    method GetTxStatus(hash: Hash) returns (status: TxStatus)
      requires Valid()
      ensures status == Commited <==> exists i :: 0 <= i < |executed| && hash in executed[i]
      ensures status == Queued <==> hash in pool.Queue()
      ensures status == NotFound <==> hash !in pool.txItems && hash !in storedTxs
    {
      status := pool.GetTxStatus(hash);
      if status != NotFound {
        return status;
      }
      if hash in storedTxs {
        return Commited;
      }
      return NotFound;
    }

    /** consensus/state.go:131-147, in map order. */
    method GetUncommitedOlderBlocks(height: nat) returns (list: seq<Blk>)
      requires Keyed()
      ensures forall b :: b in list <==>
        b.hash in blocks && blocks[b.hash] == b && b.height < height && b.hash !in commited
    {
      list := [];
      var rest := blocks.Keys;
      while rest != {}
        invariant rest <= blocks.Keys
        invariant forall b :: b in list <==>
          b.hash in blocks && b.hash !in rest && blocks[b.hash] == b && b.height < height && b.hash !in commited
      {
        var h :| h in rest;
        if blocks[h].height < height && h !in commited {
          list := list + [blocks[h]];
        }
        rest := rest - {h};
      }
    }

    /** consensus/state.go:119-129, in map order. */
    method GetOlderBlocks(height: nat) returns (list: seq<Blk>)
      requires Keyed()
      ensures forall b :: b in list <==> b.hash in blocks && blocks[b.hash] == b && b.height < height
    {
      list := [];
      var rest := blocks.Keys;
      while rest != {}
        invariant rest <= blocks.Keys
        invariant forall b :: b in list <==>
          b.hash in blocks && b.hash !in rest && blocks[b.hash] == b && b.height < height
      {
        var h :| h in rest;
        if blocks[h].height < height {
          list := list + [blocks[h]];
        }
        rest := rest - {h};
      }
    }

    /** consensus/hs_driver.go:121-126 */
    method DropForks(folks: seq<Blk>)
      requires pool.Valid() && Keyed()
      modifies this`blocks, this`qcs, pool.txq`items, pool.txq.pool`index
      ensures pool.Valid() && Keyed() && blocks == old(blocks) - HashesOf(folks) && qcs == old(qcs) - HashesOf(folks)
      ensures pool.Queue() == old(pool.Queue()) + (TxsOf(folks) * pool.txItems.Keys)
    {
      for i := 0 to |folks|
        invariant pool.Valid() && Keyed() && blocks == old(blocks) - HashesOf(folks[..i])
        invariant qcs == old(qcs) - HashesOf(folks[..i])
        invariant pool.Queue() == old(pool.Queue()) + (TxsOf(folks[..i]) * pool.txItems.Keys)
      {
        assert folks[..i + 1] == folks[..i] + [folks[i]];
        AppendBlk(folks[..i], folks[i]);
        DropOne(old(blocks), old(pool.Queue()), pool.txItems.Keys, folks[..i], folks[i]);
        pool.PutTxsToQueue(folks[i].txs);
        blocks := blocks - {folks[i].hash};
        qcs := qcs - {folks[i].hash};
      }
      assert folks[..|folks|] == folks;
    }

    /** consensus/hs_driver.go:130-140 */
    method DeleteCommitedOlderBlocks(height: nat)
      requires Keyed()
      modifies this`blocks, this`commited
      ensures Keyed()
      ensures forall h :: h in blocks <==> h in old(blocks) && !(old(blocks)[h].height < height - 20)
      ensures forall h :: h in commited <==>
        h in old(commited) && !(h in old(blocks) && old(blocks)[h].height < height - 20)
      ensures forall h :: h in blocks ==> blocks[h] == old(blocks)[h]
    {
      if height < 20 {
        return;
      }
      var blks := GetOlderBlocks(height - 20);
      for i := 0 to |blks|
        invariant Keyed() && blocks == old(blocks) - HashesOf(blks[..i])
        invariant commited == old(commited) - HashesOf(blks[..i])
      {
        AppendBlk(blks[..i], blks[i]);
        assert blks[..i + 1] == blks[..i] + [blks[i]];
        blocks := blocks - {blks[i].hash};
        commited := commited - {blks[i].hash};
      }
      assert blks[..|blks|] == blks;
      forall h | h in old(blocks)
        ensures h in HashesOf(blks) <==> old(blocks)[h].height < height - 20
      {
        OlderHashes(old(blocks), blks, height - 20, h);
      }
    }

    /** consensus/hs_driver.go:120-126: the forks below a committed block go, their transactions are queued again. */
    method DiscardForks(blk: Blk, ghost before: set<Hash>)
      requires pool.Valid() && Keyed() && commited == before + {blk.hash}
      modifies this`blocks, this`qcs, pool.txq`items, pool.txq.pool`index
      ensures pool.Valid() && Keyed()
      ensures forall h :: h in blocks <==> h in old(blocks) && !IsFork(old(blocks)[h], blk, before)
      ensures forall h :: h in blocks ==> blocks[h] == old(blocks)[h]
      ensures forall h :: h in qcs <==> h in old(qcs) && !(h in old(blocks) && IsFork(old(blocks)[h], blk, before))
      ensures forall h, t :: h in old(blocks) && IsFork(old(blocks)[h], blk, before) && t in old(blocks)[h].txs ==>
        t in pool.txItems ==> t in pool.Queue()
    {
      var folks := GetUncommitedOlderBlocks(blk.height);
      ghost var all := blocks;
      DropForks(folks);
      forall h | h in all
        ensures h in HashesOf(folks) <==> IsFork(all[h], blk, before)
        ensures IsFork(all[h], blk, before) ==> forall t :: t in all[h].txs ==> t in TxsOf(folks)
      {
        ForkListed(all, folks, blk, before, h);
      }
    }

    /**
     What pruning after `blk` leaves of the cached blocks `before`: nothing new, every block of its height
     or above, and no fork below it, whose pooled transactions are queued again.
     */
    ghost predicate Pruned(before: map<Hash, Blk>, blk: Blk, commitedBefore: set<Hash>)
      reads this`blocks, pool, pool.txq
    {
      && (forall h :: h in blocks ==> h in before && blocks[h] == before[h])
      && (forall h :: h in before && before[h].height >= blk.height ==> h in blocks)
      && (forall h :: h in before && IsFork(before[h], blk, commitedBefore) ==>
            h !in blocks && forall t :: t in before[h].txs && t in pool.txItems ==> t in pool.Queue())
    }

    /**
     What it leaves of the certificates and of the committed marks: the certificates of the forks go, and the
     marks of the cached blocks more than twenty below.
     */
    ghost predicate Unmarked(before: map<Hash, Blk>, blk: Blk, commitedBefore: set<Hash>, qcsBefore: set<Hash>)
      reads this`qcs, this`commited
    {
      && (forall h :: h in qcs <==> h in qcsBefore && !(h in before && IsFork(before[h], blk, commitedBefore)))
      && (forall h :: h in commited <==>
            (h in commitedBefore || h == blk.hash) && !(h in before && before[h].height < blk.height - 20))
    }

    /** consensus/hs_driver.go:120-127 */
    method Prune(blk: Blk, ghost before: set<Hash>)
      requires pool.Valid() && Keyed() && commited == before + {blk.hash}
      modifies this`blocks, this`qcs, this`commited, pool.txq`items, pool.txq.pool`index
      ensures pool.Valid() && Keyed() && commited <= old(commited)
      ensures Pruned(old(blocks), blk, before) && Unmarked(old(blocks), blk, before, old(qcs))
    {
      DiscardForks(blk, before);
      DeleteCommitedOlderBlocks(blk.height);
    }

    /** consensus/hs_driver.go:114-128 */
    method CleanStateOnCommited(blk: Blk)
      requires Core() && blk.hash in storedBlocks && pool.txItems.Keys * storedTxs <= HashSet(blk.txs)
      modifies this`blocks, this`qcs, this`commited, this`commitedHeight
      modifies pool`txItems, pool.txq`items, pool.txq.pool`index
      ensures Valid() && commitedHeight == blk.height
      ensures pool.txItems == old(pool.txItems) - HashSet(blk.txs)
      ensures Pruned(old(blocks), blk, old(commited))
      ensures Unmarked(old(blocks), blk, old(commited), old(qcs) - {blk.hash})
      ensures storedBlocks == old(storedBlocks)
    {
      qcs := qcs - {blk.hash};
      pool.RemoveTxs(blk.txs);
      commited := commited + {blk.hash};
      commitedHeight := blk.height;
      Prune(blk, old(commited));
    }

    /** storage/storage.go:185-192: the block, its certificate if there is one, the transactions and their errors. */
    method WriteChainData(blk: Blk, txs: seq<Hash>, errors: seq<string>)
      requires Core() && |errors| == |txs| && forall t :: t in txs ==> t !in storedTxs
      modifies this`executed, this`storedTxs, this`txCommits, this`storedBlocks, this`lastQC
      ensures Core() && executed == old(executed) + [txs]
      ensures storedTxs == old(storedTxs) + HashSet(txs) && storedBlocks == old(storedBlocks)[blk.hash := blk]
      ensures txCommits == old(txCommits) + ErrorMap(txs, errors)
      ensures lastQC == if blk.hash in qcs then Some(blk.hash) else old(lastQC)
      ensures old(AtMostOnce(executed)) && DistinctHashes(txs) ==> AtMostOnce(executed)
    {
      ghost var before := executed;
      executed := executed + [txs];
      storedTxs := storedTxs + HashSet(txs);
      storedBlocks := storedBlocks[blk.hash := blk];
      if blk.hash in qcs {
        lastQC := Some(blk.hash);
      }
      ErrorMapKeys(txs, errors);
      txCommits := txCommits + ErrorMap(txs, errors);
      ExecutedMore(before, txs, executed, old(storedTxs), storedTxs);
    }

    /** The stored part of a commit: of the pool's transactions only the block's are now stored. */
    method StoreExecuted(blk: Blk, txs: seq<Hash>, errors: seq<string>)
      requires Valid() && txs == Select(blk.txs, storedTxs, false) && |errors| == |txs|
      modifies this`executed, this`storedTxs, this`txCommits, this`storedBlocks, this`lastQC
      ensures Core() && pool.txItems.Keys * storedTxs <= HashSet(blk.txs)
      ensures executed == old(executed) + [txs] && storedBlocks == old(storedBlocks)[blk.hash := blk]
      ensures txCommits == old(txCommits) + ErrorMap(txs, errors) && old(txCommits).Keys !! HashSet(txs)
      ensures lastQC == if blk.hash in qcs then Some(blk.hash) else old(lastQC)
      ensures old(AtMostOnce(executed)) && DistinctHashes(blk.txs) ==> AtMostOnce(executed)
    {
      SelectMembers(blk.txs, storedTxs, false);
      SelectDistinctIff(blk.txs, storedTxs, false);
      WriteChainData(blk, txs, errors);
    }

    /**
     consensus/hs_driver.go:88-112 with storage/storage.go:185-192; false at the fatal stop.  The
     transactions not stored before are executed, the others listed as old; pruning loses no committed
     block and no pooled block of the committed height or above, leaves no transaction of the block in
     the pool, and queues the pool's transactions of every discarded fork again.
     */
    method Commit(blk: Blk, execute: seq<Hash> -> seq<string>) returns (ok: bool)
      requires Valid() && forall txs :: |execute(txs)| == |txs|
      modifies this, pool`txItems, pool.txq`items, pool.txq.pool`index
      ensures ok <==> !exists t :: t in blk.txs && t !in old(storedTxs) && t !in old(pool.txItems)
      ensures ok ==> Valid()
      ensures ok ==> var txs := Select(blk.txs, old(storedTxs), false);
        && InOrder(txs, blk.txs, old(storedTxs), false)
        && executed == old(executed) + [txs] && commitedTxCount == old(commitedTxCount) + |txs|
        && txCommits == old(txCommits) + ErrorMap(txs, execute(txs)) && old(txCommits).Keys !! HashSet(txs)
      ensures ok ==>
        lastQC == (if blk.hash in old(qcs) then Some(blk.hash) else old(lastQC)) && commitedHeight == blk.height
      ensures ok ==> storedBlocks == old(storedBlocks)[blk.hash := blk]
      ensures ok ==> forall h :: h in storedBlocks ==>
        Found(h) == Some(storedBlocks[h]) || (h in old(blocks) && Found(h) == Some(old(blocks)[h]))
      ensures ok ==> forall h :: h in old(blocks) && old(blocks)[h].height >= blk.height ==>
        Found(h) == Some(old(blocks)[h])
      ensures ok ==> pool.txItems == old(pool.txItems) - HashSet(blk.txs) && Pruned(old(blocks), blk, old(commited))
      ensures ok ==> Unmarked(old(blocks), blk, old(commited), old(qcs) - {blk.hash})
      ensures ok && old(AtMostOnce(executed)) && DistinctHashes(blk.txs) ==> AtMostOnce(executed)
    {
      var r := GetTxsToExecute(blk.txs);
      if r.None? {
        return false;
      }
      FinishCommit(blk, r.value.0, execute(r.value.0));
      PrunedFinds(old(blocks), blk, old(commited));
      return true;
    }

    /** The part of Commit after the execution: consensus/hs_driver.go:95-107. */
    method FinishCommit(blk: Blk, txs: seq<Hash>, errors: seq<string>)
      requires Valid() && txs == Select(blk.txs, storedTxs, false) && |errors| == |txs|
      modifies this, pool`txItems, pool.txq`items, pool.txq.pool`index
      ensures Valid()
      ensures executed == old(executed) + [txs]
      ensures commitedTxCount == old(commitedTxCount) + |txs|
      ensures txCommits == old(txCommits) + ErrorMap(txs, errors)
      ensures old(txCommits).Keys !! HashSet(txs)
      ensures lastQC == (if blk.hash in old(qcs) then Some(blk.hash) else old(lastQC))
      ensures commitedHeight == blk.height
      ensures storedBlocks == old(storedBlocks)[blk.hash := blk]
      ensures pool.txItems == old(pool.txItems) - HashSet(blk.txs)
      ensures Pruned(old(blocks), blk, old(commited))
      ensures Unmarked(old(blocks), blk, old(commited), old(qcs) - {blk.hash})
      ensures old(AtMostOnce(executed)) && DistinctHashes(blk.txs) ==> AtMostOnce(executed)
    {
      StoreExecuted(blk, txs, errors);
      commitedTxCount := commitedTxCount + |txs|;
      CleanStateOnCommited(blk);
    }

    /** After pruning getBlock answers as before for the blocks that stay, and else from storage. */
    lemma PrunedFinds(before: map<Hash, Blk>, blk: Blk, commitedBefore: set<Hash>)
      requires Pruned(before, blk, commitedBefore)
      ensures forall h :: h in storedBlocks ==>
        Found(h) == Some(storedBlocks[h]) || (h in before && Found(h) == Some(before[h]))
      ensures forall h :: h in before && before[h].height >= blk.height ==> Found(h) == Some(before[h])
    {
    }
  }

  /** Below the committed block, other than it, and not committed. */
  predicate IsFork(b: Blk, blk: Blk, commited: set<Hash>)
  {
    b.height < blk.height && b.hash != blk.hash && b.hash !in commited
  }

  /** The errors of the executed transactions, by hash. */
  function ErrorMap(txs: seq<Hash>, errors: seq<string>): map<Hash, string>
    requires |errors| == |txs|
  {
    if txs == [] then map[] else
    var k := |txs| - 1;
    ErrorMap(txs[..k], errors[..k])[txs[k] := errors[k]]
  }

  lemma {:induction false} ErrorMapKeys(txs: seq<Hash>, errors: seq<string>)
    requires |errors| == |txs|
    ensures ErrorMap(txs, errors).Keys == HashSet(txs)
  {
    if txs != [] {
      var k := |txs| - 1;
      ErrorMapKeys(txs[..k], errors[..k]);
      assert txs == txs[..k] + [txs[k]];
    }
  }

  /** For distinct transactions every one is recorded with its own error. */
  lemma {:induction false} ErrorMapAt(txs: seq<Hash>, errors: seq<string>, i: nat)
    requires |errors| == |txs| && i < |txs| && DistinctHashes(txs)
    ensures txs[i] in ErrorMap(txs, errors) && ErrorMap(txs, errors)[txs[i]] == errors[i]
  {
    var k := |txs| - 1;
    if i < k {
      ErrorMapAt(txs[..k], errors[..k], i);
    }
  }

  /** One more executed list, of transactions not stored before. */
  lemma ExecutedMore(before: seq<seq<Hash>>, txs: seq<Hash>, after: seq<seq<Hash>>, stored: set<Hash>,
                     stored': set<Hash>)
    requires ExecutedOnce(before, stored) && after == before + [txs] && stored' == stored + HashSet(txs)
    requires forall t :: t in txs ==> t !in stored
    ensures ExecutedOnce(after, stored')
    ensures AtMostOnce(before) && DistinctHashes(txs) ==> AtMostOnce(after)
  {
    forall h
      ensures h in stored' <==> exists i :: 0 <= i < |after| && h in after[i]
    {
      if h in stored {
        var i :| 0 <= i < |before| && h in before[i];
        assert h in after[i];
      }
      if h in txs {
        assert h in after[|before|];
      }
    }
  }

  ghost function HashesOf(list: seq<Blk>): set<Hash>
  {
    set b | b in list :: b.hash
  }

  ghost function TxsOf(list: seq<Blk>): set<Hash>
  {
    set b, t | b in list && t in b.txs :: t
  }

  lemma AppendBlk(list: seq<Blk>, b: Blk)
    ensures HashesOf(list + [b]) == HashesOf(list) + {b.hash}
    ensures TxsOf(list + [b]) == TxsOf(list) + HashSet(b.txs)
  {
    forall x | x in list + [b]
      ensures x in list || x == b
    {
    }
    assert b in list + [b];
  }

  lemma DropOne(blocks: map<Hash, Blk>, queue: set<Hash>, pooled: set<Hash>, list: seq<Blk>, b: Blk)
    ensures blocks - HashesOf(list) - {b.hash} == blocks - HashesOf(list + [b])
    ensures queue + (TxsOf(list) * pooled) + (HashSet(b.txs) * pooled) == queue + (TxsOf(list + [b]) * pooled)
  {
    AppendBlk(list, b);
  }

  lemma OlderHashes(blocks: map<Hash, Blk>, list: seq<Blk>, height: nat, h: Hash)
    requires h in blocks && forall k :: k in blocks ==> blocks[k].hash == k
    requires forall b :: b in list <==> b.hash in blocks && blocks[b.hash] == b && b.height < height
    ensures h in HashesOf(list) <==> blocks[h].height < height
  {
    assert blocks[h] in list <==> blocks[h].height < height;
    if h in HashesOf(list) {
      var b :| b in list && b.hash == h;
      assert b == blocks[h];
    }
  }

  lemma ForkListed(blocks: map<Hash, Blk>, list: seq<Blk>, blk: Blk, commited: set<Hash>, h: Hash)
    requires h in blocks && forall k :: k in blocks ==> blocks[k].hash == k
    requires forall b :: b in list <==>
      b.hash in blocks && blocks[b.hash] == b && b.height < blk.height && b.hash !in commited + {blk.hash}
    ensures h in HashesOf(list) <==> IsFork(blocks[h], blk, commited)
    ensures IsFork(blocks[h], blk, commited) ==> forall t :: t in blocks[h].txs ==> t in TxsOf(list)
  {
    assert blocks[h] in list <==> IsFork(blocks[h], blk, commited);
    if h in HashesOf(list) {
      var b :| b in list && b.hash == h;
      assert b == blocks[h];
    }
  }
}
