/**
 * Where the database does not do what one might expect of it: the exact conditions, and runs that
 * show each case.
 */
module Discrepancies {
  import opened Outcomes
  import opened KeyedTables
  import opened Ledger
  import opened Reorganization
  import opened FailedCalls
  import opened WriteBatches
  import opened LedgerInvariants
  import opened ReachableStates
  import opened Acceptance

  // ----- Which commitment an output carries -----

  /** Output i of a transaction as it is looked up: by hash, then by bucket and recorded index. */
  function LookUp(s: State, hash: Hash, bucket: nat, i: nat): Option<OutKey> {
    if hash !in s.txs.txIndices then None
    else
      var indices := Find(s.txs.txOutputs, s.txs.txIndices[hash].txId);
      if indices.None? || i >= |indices.value| then None
      else Find(Bucket(s.outs.outputAmounts, bucket), indices.value[i])
  }

  predicate CarriesMask(record: OutKey, tx: TxBase, i: nat) {
    i < |tx.outPk| && record.commitment == Some(tx.outPk[i])
  }

  /** The record of output i carries zeroCommit if pseudo-RingCT, and else its mask exactly under the condition. */
  ghost predicate CommitmentRight(h: Hashing, s: State, st: Stored, i: nat)
    requires i < |st.tx.base.vout|
  {
    var tx := st.tx.base;
    var record := LookUp(s, st.hash, BucketOf(tx, i), i);
    && record.Some? && Some(record.value.pubkey) == tx.vout[i].target
    && if PseudoRct(tx) then record.value.commitment == Some(h.zeroCommit(tx.vout[i].amount))
       else CarriesMask(record.value, tx, i) <==> tx.version > 1 && tx.vout[i].amount == 0
  }

  lemma RecordedLookUp(h: Hashing, s: State, stored: seq<Stored>, id: nat, i: nat)
    requires TablesHold(h, s.txs, s.outs, stored) && id < |stored| && i < |stored[id].tx.base.vout| && Storable(stored[id].tx.base)
    ensures CommitmentRight(h, s, stored[id], i)
  {
    hide PseudoRct, Find;
    var st := stored[id];
    var tx := st.tx.base;
    forall k | 0 <= k < |stored| ensures s.txs.txOutputs[k].key == k {
      assert Recorded(h, s.txs, s.outs, stored[k], k);
    }
    assert Recorded(h, s.txs, s.outs, st, id);
    FindDense(s.txs.txOutputs, id);
    var index := s.txs.txOutputs[id].value[i];
    assert OutputAt(h, s.outs, tx, st.hash, st.height, i, index);
    FindDense(Bucket(s.outs.outputAmounts, BucketOf(tx, i)), index);
    assert StorableAt(tx, i);
  }

  /**
   * After every clean run, every output outside the pseudo-RingCT rule carries its mask if and
   * only if its amount is zero and its transaction is of version 2 or later.
   */
  lemma MaskIsStored(h: Hashing, calls: seq<Call>)
    requires Clean(h, calls)
    ensures Matched(Surviving(h, calls))
    ensures var stored := StoredOf(h, Surviving(h, calls));
            forall id, i :: 0 <= id < |stored| && 0 <= i < |stored[id].tx.base.vout| ==>
                              CommitmentRight(h, Run(h, calls).tables, stored[id], i)
  {
    hide Run, Surviving, Clean, CommitmentRight, TablesHold, CountsHold, Replay, Storable, Supported;
    OutputsInvariant(h, calls);
    RunIsReplay(h, calls);
    ReplayAcceptable(h, Surviving(h, calls));
    var stored := StoredOf(h, Surviving(h, calls));
    forall id, i | 0 <= id < |stored| && 0 <= i < |stored[id].tx.base.vout|
      ensures CommitmentRight(h, Run(h, calls).tables, stored[id], i)
    {
      RecordedLookUp(h, Run(h, calls).tables, stored, id, i);
    }
  }

  // ----- Runs of one batch -----

  /** One batch that adds the blocks and is committed. */
  function AddAll(entries: seq<Entry>): seq<Call> {
    if entries == [] then [BatchStart(true)] else AddAll(entries[..|entries| - 1]) + [Add(entries[|entries| - 1])]
  }

  lemma {:induction false} AddAllRuns(h: Hashing, entries: seq<Entry>)
    requires Replay(h, entries).Success?
    ensures Run(h, AddAll(entries)) == Session(Replay(h, entries).value, Some(EMPTY))
    ensures Tracked(h, AddAll(entries)) == Track(entries, true, Some(([], true)))
  {
    hide AddBlock, AddBlockLeft, Untouched;
    var calls := AddAll(entries);
    if entries == [] {
      assert calls[..0] == [];
    } else {
      var before := entries[..|entries| - 1];
      AddAllRuns(h, before);
      assert calls[..|calls| - 1] == AddAll(before);
      assert before + [entries[|entries| - 1]] == entries;
    }
  }

  lemma BatchRuns(h: Hashing, entries: seq<Entry>)
    requires Replay(h, entries).Success?
    ensures Run(h, AddAll(entries) + [BatchStop(true)]) == Session(Replay(h, entries).value, None)
    ensures Clean(h, AddAll(entries) + [BatchStop(true)]) && Surviving(h, AddAll(entries) + [BatchStop(true)]) == entries
  {
    hide Replay, AddAll;
    AddAllRuns(h, entries);
    var calls := AddAll(entries);
    assert (calls + [BatchStop(true)])[..|calls|] == calls;
  }

  lemma FirstBlock(h: Hashing, e: Entry)
    requires |e.txs| == |e.block.txHashes| && e.block.majorVersion < 4 && Acceptable(h, StoredOfBlock(h, e, 0))
    ensures Replay(h, [e]).Success?
    ensures Matched([e]) && StoredOf(h, [e]) == StoredOfBlock(h, e, 0)
  {
    hide AddBlock, Acceptable, StoredOfBlock, Holds, ChainHolds;
    EmptyHolds(h);
    NothingAcceptable(h);
    assert [] + StoredOfBlock(h, e, 0) == StoredOfBlock(h, e, 0);
    BlockAccepted(h, EMPTY, e, [], []);
    assert [e][..0] == [];
    assert Matched([]) && StoredOf(h, []) == [];
  }

  // ----- A version-2 output stored without its mask -----

  /** A transaction with a revealed amount that is neither a coinbase nor a transparent post-quantum spend. */
  const REVEALED := TxBase(2, 0, [ToKey(1)], [Output(5, Some(7))], 1, [9])

  function RevealedEntry(h: Hashing): Entry {
    var miner := Transaction(TxBase(1, 0, [Gen(0)], [], 0, []), 0);
    Entry(Block(1, 0, 0, miner, [h.txHash(miner) + 1]), 0, 0, 0, 0, [Transaction(REVEALED, 0)])
  }

  lemma RevealedIsAcceptable(h: Hashing)
    ensures var e := RevealedEntry(h); |e.txs| == |e.block.txHashes| && Acceptable(h, StoredOfBlock(h, e, 0))
  {
    var e := RevealedEntry(h);
    var stored := StoredOfBlock(h, e, 0);
    var miner, tx := stored[0].tx.base, stored[1].tx.base;
    assert |stored| == 2 && tx == REVEALED && stored == [stored[0], stored[1]];
    assert Images(h, miner.vin) == [] by { assert miner.vin[1..] == []; }
    assert Images(h, tx.vin) == [1] by { assert tx.vin[1..] == []; }
    TwoImages(h, stored[0], stored[1]);
    assert forall i :: 0 <= i < |tx.vout| ==> StorableAt(tx, i);
  }

  /** A reachable state in which a version-2 output has lost its mask. */
  lemma RevealedAmountLosesMask(h: Hashing)
    ensures var e := RevealedEntry(h);
            var calls := AddAll([e]) + [BatchStop(true)];
            var record := LookUp(Run(h, calls).tables, e.block.txHashes[0], 5, 0);
            && Clean(h, calls) && Surviving(h, calls) == [e]
            && record.Some? && !CarriesMask(record.value, REVEALED, 0)
  {
    var e := RevealedEntry(h);
    RevealedIsAcceptable(h);
    FirstBlock(h, e);
    BatchRuns(h, [e]);
    var calls := AddAll([e]) + [BatchStop(true)];
    MaskIsStored(h, calls);
    hide Run, Tracked, Surviving, AddAll, LookUp, Replay, Acceptable, Clean, StoredOf;
    var stored := StoredOf(h, [e]);
    assert stored[1].tx.base == REVEALED && stored[1].hash == e.block.txHashes[0];
    assert !REVEALED.vin[0].Gen? && !REVEALED.vin[0].ToKeyPq?;
    assert CommitmentRight(h, Run(h, calls).tables, stored[1], 0);
  }

  // ----- A running count that is not the size of bucket 0 -----

  /** Hash functions that read the hash off a field. */
  const SAMPLE := Hashing(
    (t: Transaction) => t.prunable,
    (t: Transaction) => t.prunable,
    (b: Block) => b.timestamp,
    (amount: nat) => amount,
    (key: Key) => key)

  /** A block of version 1 with the given number, outputs and transactions; it follows the block with the number before. */
  function SampleEntry(n: nat, vout: seq<Output>, txs: seq<Transaction>, hashes: seq<Hash>): Entry {
    var miner := Transaction(TxBase(2, 0, [Gen(n)], vout, 0, []), n);
    Entry(Block(1, n, if n == 0 then 0 else n - 1, miner, hashes), 0, 0, 0, 0, txs)
  }

  lemma NextBlock(h: Hashing, entries: seq<Entry>, e: Entry)
    requires Replay(h, entries).Success? && Matched(entries) && |e.txs| == |e.block.txHashes|
    ensures Matched(entries + [e]) && StoredOf(h, entries + [e]) == StoredOf(h, entries) + StoredOfBlock(h, e, |entries|)
    ensures Replay(h, entries + [e]).Success? <==> Acceptable(h, StoredOf(h, entries + [e])) && Continues(h, entries, e)
  {
    hide AddBlock, Acceptable, StoredOfBlock, Holds, ChainHolds, Continues, Replay;
    ReplayHolds(h, entries);
    ReplayAcceptable(h, entries);
    ReplayOneMore(h, entries, e);
    assert (entries + [e])[..|entries|] == entries;
    BlockAccepted(h, Replay(h, entries).value, e, entries, StoredOf(h, entries));
  }

  const PAYING := SampleEntry(0, [Output(5, Some(7))], [], [])
  const SILENT := SampleEntry(1, [], [], [])

  function SampleStored(n: nat, vout: seq<Output>, height: nat): Stored {
    Stored(Transaction(TxBase(2, 0, [Gen(n)], vout, 0, []), n), n, height)
  }

  lemma SampleBlock(n: nat, vout: seq<Output>, height: nat)
    ensures StoredOfBlock(SAMPLE, SampleEntry(n, vout, [], []), height) == [SampleStored(n, vout, height)]
    ensures Images(SAMPLE, SampleStored(n, vout, height).tx.base.vin) == []
    ensures Supported(SampleStored(n, vout, height).tx.base.vin) && PseudoRct(SampleStored(n, vout, height).tx.base)
  {
    var vin := SampleStored(n, vout, height).tx.base.vin;
    assert vin[0].Gen? && vin[1..] == [];
  }

  lemma ImagesOneMore(h: Hashing, stored: seq<Stored>, st: Stored)
    ensures StoredImages(h, stored + [st]) == StoredImages(h, stored) + Images(h, st.tx.base.vin)
  {
    hide Images;
    assert (stored + [st])[..|stored|] == stored;
  }

  lemma TwoImages(h: Hashing, a: Stored, b: Stored)
    ensures StoredImages(h, [a]) == Images(h, a.tx.base.vin)
    ensures StoredImages(h, [a, b]) == Images(h, a.tx.base.vin) + Images(h, b.tx.base.vin)
  {
    hide Images;
    assert [a][..0] == [];
    ImagesOneMore(h, [a], b);
    assert [a] + [b] == [a, b];
  }

  lemma SamplesAreAcceptable()
    ensures Acceptable(SAMPLE, [SampleStored(0, [Output(5, Some(7))], 0)])
    ensures Acceptable(SAMPLE, [SampleStored(0, [Output(5, Some(7))], 0), SampleStored(1, [], 1)])
  {
    hide Images, StoredImages, Supported, PseudoRct;
    SampleBlock(0, [Output(5, Some(7))], 0);
    SampleBlock(1, [], 1);
    var first, second := SampleStored(0, [Output(5, Some(7))], 0), SampleStored(1, [], 1);
    TwoImages(SAMPLE, first, second);
    assert StorableAt(first.tx.base, 0);
  }

  lemma SamplesAreAccepted()
    ensures Replay(SAMPLE, [PAYING, SILENT]).Success?
  {
    hide Replay, Acceptable, StoredOfBlock, StoredOf;
    SamplesAreAcceptable();
    SampleBlock(0, [Output(5, Some(7))], 0);
    SampleBlock(1, [], 1);
    FirstBlock(SAMPLE, PAYING);
    NextBlock(SAMPLE, [PAYING], SILENT);
    assert [PAYING] + [SILENT] == [PAYING, SILENT];
    assert [SampleStored(0, [Output(5, Some(7))], 0)] + [SampleStored(1, [], 1)]
        == [SampleStored(0, [Output(5, Some(7))], 0), SampleStored(1, [], 1)];
  }

  /** A reachable state in which the running count of the top block is not the size of bucket 0. */
  lemma CumulativeRctDiffers()
    ensures var calls := AddAll([PAYING, SILENT]) + [BatchStop(true)];
            var s := Run(SAMPLE, calls).tables;
            && Clean(SAMPLE, calls) && Surviving(SAMPLE, calls) == [PAYING, SILENT] && |s.chain.blockInfo| == 2
            && s.chain.blockInfo[1].value.cumulativeRct != |Bucket(s.outs.outputAmounts, 0)|
  {
    var entries := [PAYING, SILENT];
    SamplesAreAccepted();
    hide Replay, Run, Tracked, Surviving, Clean, AddAll;
    BatchRuns(SAMPLE, entries);
    CumulativeRctInvariant(SAMPLE, AddAll(entries) + [BatchStop(true)]);
    assert entries[..1] == [PAYING] && [PAYING][..0] == [];
    assert PAYING.block.minerTx.base.vin[0].Gen?;
    assert TotalRct([PAYING]) == BlockRctOuts(PAYING) == 1;
    assert LastRestart(entries) == 1;
  }

  // ----- A batch with a failed add_block -----

  function Spending(n: nat): Transaction {
    Transaction(TxBase(1, 0, [ToKey(7)], [], 0, []), n)
  }

  const FIRST_SPEND := SampleEntry(0, [], [Spending(10)], [10])
  const SECOND_SPEND := SampleEntry(1, [], [Spending(11)], [11])

  /** The transactions of such a block, and their key image. */
  lemma SpendingBlock(n: nat, k: nat, height: nat)
    ensures StoredOfBlock(SAMPLE, SampleEntry(n, [], [Spending(k)], [k]), height)
         == [SampleStored(n, [], height), Stored(Spending(k), k, height)]
    ensures Images(SAMPLE, Spending(k).base.vin) == [7] && Supported(Spending(k).base.vin)
  {
    assert Spending(k).base.vin[1..] == [];
    SampleBlock(n, [], height);
  }

  lemma SpendingImages(n: nat, k: nat, height: nat)
    ensures StoredImages(SAMPLE, [SampleStored(n, [], height), Stored(Spending(k), k, height)]) == [7]
    ensures n != k ==> Acceptable(SAMPLE, [SampleStored(n, [], height), Stored(Spending(k), k, height)])
  {
    hide Images, StoredImages, Supported, PseudoRct;
    SampleBlock(n, [], height);
    SpendingBlock(n, k, height);
    TwoImages(SAMPLE, SampleStored(n, [], height), Stored(Spending(k), k, height));
  }

  lemma FirstSpendIsAccepted()
    ensures Replay(SAMPLE, [FIRST_SPEND]).Success? && Matched([FIRST_SPEND])
    ensures StoredOf(SAMPLE, [FIRST_SPEND]) == [SampleStored(0, [], 0), Stored(Spending(10), 10, 0)]
  {
    hide Replay, Acceptable, StoredOfBlock, StoredOf;
    SpendingBlock(0, 10, 0);
    SpendingImages(0, 10, 0);
    FirstBlock(SAMPLE, FIRST_SPEND);
  }

  lemma SpendsClash()
    ensures !Acceptable(SAMPLE, [SampleStored(0, [], 0), Stored(Spending(10), 10, 0),
                                 SampleStored(1, [], 1), Stored(Spending(11), 11, 1)])
  {
    hide Images, StoredImages;
    var a, b := [SampleStored(0, [], 0), Stored(Spending(10), 10, 0)], [SampleStored(1, [], 1), Stored(Spending(11), 11, 1)];
    SpendingImages(0, 10, 0);
    SpendingBlock(1, 11, 1);
    SampleBlock(1, [], 1);
    var all := a + [b[0]] + [b[1]];
    ImagesOneMore(SAMPLE, a, b[0]);
    ImagesOneMore(SAMPLE, a + [b[0]], b[1]);
    assert StoredImages(SAMPLE, all)[0] == StoredImages(SAMPLE, all)[1];
    assert all == [SampleStored(0, [], 0), Stored(Spending(10), 10, 0), SampleStored(1, [], 1), Stored(Spending(11), 11, 1)];
  }

  lemma SecondSpendFails()
    ensures Replay(SAMPLE, [FIRST_SPEND]).Success?
    ensures var s := Replay(SAMPLE, [FIRST_SPEND]).value;
            AddBlock(SAMPLE, s, SECOND_SPEND).Failure? && !Untouched(SAMPLE, s, SECOND_SPEND)
  {
    hide AddBlock, Replay, Acceptable, StoredOfBlock, StoredOf, Continues;
    var entries := [FIRST_SPEND];
    FirstSpendIsAccepted();
    ReplayOneMore(SAMPLE, entries, SECOND_SPEND);
    SpendingBlock(1, 11, 1);
    NextBlock(SAMPLE, entries, SECOND_SPEND);
    SpendsClash();
    var first := [SampleStored(0, [], 0), Stored(Spending(10), 10, 0)];
    assert first + [SampleStored(1, [], 1), Stored(Spending(11), 11, 1)]
        == [SampleStored(0, [], 0), Stored(Spending(10), 10, 0), SampleStored(1, [], 1), Stored(Spending(11), 11, 1)];
    MinerIsNew(Replay(SAMPLE, entries).value);
  }

  lemma MinerIsNew(s: State)
    requires Replay(SAMPLE, [FIRST_SPEND]) == Success(s)
    ensures !Untouched(SAMPLE, s, SECOND_SPEND)
  {
    hide Replay, StoredOf, TablesHold, CountsHold, KeysHold;
    FirstSpendIsAccepted();
    ReplayHolds(SAMPLE, [FIRST_SPEND]);
    HashIsNew(SAMPLE, s.txs, s.outs, [SampleStored(0, [], 0), Stored(Spending(10), 10, 0)], 1);
    assert SECOND_SPEND.block.minerTx.base.vin == [Gen(1)];
  }

  /**
   * In one batch, a block and then one that repeats its key image: the tables are not those of the
   * first block, committing the batch keeps them so, and aborting it drops both blocks.
   */
  lemma HalfWrittenBatch()
    ensures var calls := AddAll([FIRST_SPEND]) + [Add(SECOND_SPEND)];
            && Surviving(SAMPLE, calls) == [FIRST_SPEND]
            && Replay(SAMPLE, [FIRST_SPEND]).Success?
            && Run(SAMPLE, calls).tables != Replay(SAMPLE, [FIRST_SPEND]).value
            && Run(SAMPLE, calls + [BatchStop(true)]) == Session(Run(SAMPLE, calls).tables, None)
            && Run(SAMPLE, calls + [BatchAbort]) == Session(EMPTY, None)
  {
    hide AddBlock, AddBlockLeft, Replay, Untouched, AddAll, SampleEntry;
    SecondSpendFails();
    var before := AddAll([FIRST_SPEND]);
    AddAllRuns(SAMPLE, [FIRST_SPEND]);
    FailedAddBreaksReplay(SAMPLE, before, SECOND_SPEND);
    var calls := before + [Add(SECOND_SPEND)];
    assert calls[..|before|] == before;
    assert (calls + [BatchStop(true)])[..|calls|] == calls && (calls + [BatchAbort])[..|calls|] == calls;
  }
}
