/** The invariants of the database, after every run in which no failed call has left a trace. */
module ReachableStates {
  import opened Outcomes
  import opened KeyedTables
  import opened Ledger
  import opened Reorganization
  import opened WriteBatches
  import opened LedgerInvariants

  // ----- The blocks -----

  /** The running RingCT output count kept with the last block: it starts again at every block below version 4. */
  function CumulativeRct(entries: seq<Entry>): nat {
    if entries == [] then 0
    else
      var e := entries[|entries| - 1];
      BlockRctOuts(e) + if e.block.majorVersion >= 4 then CumulativeRct(entries[..|entries| - 1]) else 0
  }

  /** Block i is stored under its height, with its running count, and its parent is block i - 1. */
  ghost predicate BlockAt(h: Hashing, b: ChainTables, entries: seq<Entry>, i: nat)
    requires i < |b.blocks| == |b.blockInfo| == |entries|
  {
    var hash := h.blockHash(entries[i].block);
    && b.blocks[i] == Record(i, entries[i].block)
    && b.blockInfo[i] == Record(i, InfoOf(h, entries[i], CumulativeRct(entries[..i + 1])))
    && hash in b.blockHeights && b.blockHeights[hash] == i
    && (if i == 0 then entries[i].block.majorVersion < 4 else entries[i].block.prevId == h.blockHash(entries[i - 1].block))
  }

  /** The tables of blocks hold exactly the given blocks, each the parent of the next. */
  ghost predicate ChainHolds(h: Hashing, b: ChainTables, entries: seq<Entry>) {
    && |b.blocks| == |b.blockInfo| == |entries|
    && (forall i :: 0 <= i < |entries| ==> BlockAt(h, b, entries, i))
    && (forall hash :: hash in b.blockHeights ==>
          b.blockHeights[hash] < |entries| && h.blockHash(entries[b.blockHeights[hash]].block) == hash)
  }

  function InfoOf(h: Hashing, e: Entry, cumulativeRct: nat): BlockInfo {
    BlockInfo(e.block.timestamp, e.coins, e.weight, e.difficulty, h.blockHash(e.block), cumulativeRct, e.longTermWeight)
  }

  lemma BlockStays(h: Hashing, b: ChainTables, e: Entry, entries: seq<Entry>, after: ChainTables, i: nat)
    requires i < |b.blocks| == |b.blockInfo| == |entries| && BlockAt(h, b, entries, i)
    requires |after.blocks| == |after.blockInfo| == |entries| + 1 && b.blocks <= after.blocks && b.blockInfo <= after.blockInfo
    requires h.blockHash(e.block) !in b.blockHeights && after.blockHeights == b.blockHeights[h.blockHash(e.block) := |entries|]
    ensures BlockAt(h, after, entries + [e], i)
  {
    hide CumulativeRct;
    assert (entries + [e])[..i + 1] == entries[..i + 1];
  }

  lemma ChainStillHolds(h: Hashing, b: ChainTables, e: Entry, entries: seq<Entry>, after: ChainTables)
    requires ChainHolds(h, b, entries) && AddBlockData(h, b, e, BlockRctOuts(e)) == Success(after)
    ensures ChainHolds(h, after, entries + [e])
  {
    hide Find, BlockRctOuts, CumulativeRct, BlockAt;
    var all, n := entries + [e], |entries|;
    forall i | 0 <= i < n ensures BlockAt(h, after, all, i) {
      BlockStays(h, b, e, entries, after, i);
    }
    NewBlockAt(h, b, e, entries, after);
  }

  lemma NewBlockAt(h: Hashing, b: ChainTables, e: Entry, entries: seq<Entry>, after: ChainTables)
    requires ChainHolds(h, b, entries) && AddBlockData(h, b, e, BlockRctOuts(e)) == Success(after)
    ensures BlockAt(h, after, entries + [e], |entries|)
  {
    hide Find, BlockRctOuts, CumulativeRct;
    var n := |entries|;
    CumulativeRctOneMore(entries, e);
    assert (entries + [e])[..n + 1] == entries + [e];
    if n > 0 {
      assert BlockAt(h, b, entries, n - 1);
      assert entries[..n - 1 + 1] == entries;
      forall i | 0 <= i < n ensures b.blockInfo[i].key == i {
        assert BlockAt(h, b, entries, i);
      }
      FindDense(b.blockInfo, n - 1);
    }
  }

  lemma CumulativeRctOneMore(entries: seq<Entry>, e: Entry)
    ensures CumulativeRct(entries + [e]) == BlockRctOuts(e) + if e.block.majorVersion >= 4 then CumulativeRct(entries) else 0
  {
    assert (entries + [e])[..|entries|] == entries;
  }

  /** Adding blocks in order leaves tables that hold exactly these blocks and their transactions. */
  lemma {:induction false} ReplayHolds(h: Hashing, entries: seq<Entry>)
    requires Replay(h, entries).Success?
    ensures Matched(entries)
    ensures Holds(h, Replay(h, entries).value, StoredOf(h, entries)) && ChainHolds(h, Replay(h, entries).value.chain, entries)
  {
    hide AddBlock, ChainHolds, Holds, AddBlockData;
    if entries == [] {
      EmptyHolds(h);
    } else {
      var before, e := entries[..|entries| - 1], entries[|entries| - 1];
      ReplayHolds(h, before);
      var s := Replay(h, before).value;
      var after := Replay(h, entries).value;
      assert |s.chain.blocks| == |before| by { ChainLength(h, s.chain, before); }
      BlockHolds(h, s, e, StoredOf(h, before), after);
      ChainStillHolds(h, s.chain, e, before, after.chain);
      assert before + [e] == entries;
    }
  }

  lemma ChainLength(h: Hashing, b: ChainTables, entries: seq<Entry>)
    requires ChainHolds(h, b, entries)
    ensures |b.blocks| == |entries|
  {
  }

  lemma EmptyHolds(h: Hashing)
    ensures Holds(h, EMPTY, []) && ChainHolds(h, EMPTY.chain, [])
  {
  }

  // ----- The main results -----

  /**
   * After every clean run the tables hold exactly the transactions of the surviving blocks, and
   * every recorded output index points, in the bucket the rule chooses, to that very output.
   */
  lemma OutputsInvariant(h: Hashing, calls: seq<Call>)
    requires Clean(h, calls)
    ensures Matched(Surviving(h, calls))
    ensures var s := Run(h, calls).tables;
            TablesHold(h, s.txs, s.outs, StoredOf(h, Surviving(h, calls))) && CountsHold(s.outs, StoredOf(h, Surviving(h, calls)))
  {
    hide Run, Surviving, Replay, TablesHold, CountsHold, KeysHold;
    RunIsReplay(h, calls);
    ReplayHolds(h, Surviving(h, calls));
  }

  /** After every clean run the spent keys are the key images of the surviving inputs, each of one input only. */
  lemma SpentKeysInvariant(h: Hashing, calls: seq<Call>)
    requires Clean(h, calls)
    ensures Matched(Surviving(h, calls))
    ensures var images := StoredImages(h, StoredOf(h, Surviving(h, calls)));
            Run(h, calls).tables.spentKeys == Elements(images) && Distinct(images)
  {
    hide Run, Surviving, Replay, TablesHold, CountsHold;
    RunIsReplay(h, calls);
    ReplayHolds(h, Surviving(h, calls));
  }

  /** After every clean run the tables of blocks hold the surviving blocks, linked parent to child. */
  lemma BlocksInvariant(h: Hashing, calls: seq<Call>)
    requires Clean(h, calls)
    ensures ChainHolds(h, Run(h, calls).tables.chain, Surviving(h, calls))
  {
    hide Run, Surviving, Replay, Holds, ChainHolds;
    RunIsReplay(h, calls);
    ReplayHolds(h, Surviving(h, calls));
  }

  // ----- RingCT outputs -----

  /** The per-block counts added up. */
  function TotalRct(entries: seq<Entry>): nat {
    if entries == [] then 0 else TotalRct(entries[..|entries| - 1]) + BlockRctOuts(entries[|entries| - 1])
  }

  lemma {:induction false} BucketCountConcat(a: seq<Stored>, b: seq<Stored>, bucket: nat)
    ensures BucketCount(a + b, bucket) == BucketCount(a, bucket) + BucketCount(b, bucket)
  {
    hide CountIn;
    if b == [] {
      assert a + b == a;
    } else {
      BucketCountConcat(a, b[..|b| - 1], bucket);
      assert (a + b)[..|a + b| - 1] == a + b[..|b| - 1];
    }
  }

  lemma {:induction false} BucketCountOfTransactions(txs: seq<Transaction>, hashes: seq<Hash>, height: nat)
    requires |txs| == |hashes|
    ensures BucketCount(StoredFrom(txs, hashes, 0, height), 0) == TotalRctOuts(txs)
  {
    hide CountIn, NumRctOuts;
    if txs != [] {
      var n := |txs| - 1;
      BucketCountOfTransactions(txs[..n], hashes[..n], height);
      assert StoredFrom(txs, hashes, 0, height)[..n] == StoredFrom(txs[..n], hashes[..n], 0, height);
      NumRctOutsIsCount(txs[n].base);
    }
  }

  lemma BucketCountOfBlock(h: Hashing, e: Entry, height: nat)
    requires |e.txs| == |e.block.txHashes|
    ensures BucketCount(StoredOfBlock(h, e, height), 0) == BlockRctOuts(e)
  {
    hide CountIn, NumRctOuts;
    var first := [Stored(e.block.minerTx, h.txHash(e.block.minerTx), height)];
    BucketCountConcat(first, StoredFrom(e.txs, e.block.txHashes, 0, height), 0);
    BucketCountOfTransactions(e.txs, e.block.txHashes, height);
    NumRctOutsIsCount(e.block.minerTx.base);
    assert BucketCount(first[..0], 0) == 0;
  }

  lemma {:induction false} BucketCountOfChain(h: Hashing, entries: seq<Entry>)
    requires Matched(entries)
    ensures BucketCount(StoredOf(h, entries), 0) == TotalRct(entries)
  {
    hide BucketCount, StoredOfBlock, BlockRctOuts;
    if entries == [] {
      assert BucketCount([], 0) == 0 by { NothingStored(); }
    } else {
      var n := |entries| - 1;
      BucketCountOfChain(h, entries[..n]);
      BucketCountConcat(StoredOf(h, entries[..n]), StoredOfBlock(h, entries[n], n), 0);
      BucketCountOfBlock(h, entries[n], n);
    }
  }

  lemma NothingStored()
    ensures BucketCount([], 0) == 0
  {
  }

  /** After every clean run the per-block counts add up to the size of bucket 0. */
  lemma RctOutputsInvariant(h: Hashing, calls: seq<Call>)
    requires Clean(h, calls)
    ensures TotalRct(Surviving(h, calls)) == |Bucket(Run(h, calls).tables.outs.outputAmounts, 0)|
  {
    hide Run, Surviving, TablesHold, TotalRct, BucketCount;
    OutputsInvariant(h, calls);
    BucketCountOfChain(h, Surviving(h, calls));
  }

  /** How many blocks come before the last one below version 4. */
  function LastRestart(entries: seq<Entry>): (k: nat)
    ensures k <= |entries|
  {
    if entries == [] then 0
    else if entries[|entries| - 1].block.majorVersion < 4 then |entries| - 1
    else LastRestart(entries[..|entries| - 1])
  }

  lemma {:induction false} CumulativeRctSkips(entries: seq<Entry>)
    ensures CumulativeRct(entries) == TotalRct(entries) - TotalRct(entries[..LastRestart(entries)])
  {
    hide BlockRctOuts;
    if entries != [] {
      var n := |entries| - 1;
      CumulativeRctSkips(entries[..n]);
      var k := LastRestart(entries[..n]);
      assert entries[..n][..k] == entries[..k];
    }
  }

  /**
   * The running count kept with the top block is the size of bucket 0 if and only if no RingCT
   * output came before the last block below version 4.
   */
  lemma CumulativeRctInvariant(h: Hashing, calls: seq<Call>)
    requires Clean(h, calls) && Surviving(h, calls) != []
    ensures var entries, s := Surviving(h, calls), Run(h, calls).tables;
            && |s.chain.blockInfo| == |entries|
            && (s.chain.blockInfo[|entries| - 1].value.cumulativeRct == |Bucket(s.outs.outputAmounts, 0)|
                <==> TotalRct(entries[..LastRestart(entries)]) == 0)
  {
    hide Run, Surviving, TotalRct, CumulativeRct, LastRestart, Bucket;
    var entries := Surviving(h, calls);
    BlocksInvariant(h, calls);
    assert BlockAt(h, Run(h, calls).tables.chain, entries, |entries| - 1);
    RctOutputsInvariant(h, calls);
    CumulativeRctSkips(entries);
    assert entries[..|entries| - 1 + 1] == entries;
  }
}
