/** Exactly which blocks the database accepts. */
module Acceptance {
  import opened Outcomes
  import opened KeyedTables
  import opened Ledger
  import opened Reorganization
  import opened WriteBatches
  import opened LedgerInvariants
  import opened ReachableStates

  // ----- Transactions -----

  ghost predicate Supported(vin: seq<Input>) {
    forall i :: 0 <= i < |vin| ==> !vin[i].OtherInput?
  }

  /** Every output has a public key and, where one is needed, a commitment. */
  ghost predicate Storable(tx: TxBase) {
    forall i :: 0 <= i < |tx.vout| ==> StorableAt(tx, i)
  }

  predicate StorableAt(tx: TxBase, i: nat)
    requires i < |tx.vout|
  {
    && tx.vout[i].target.Some?
    && (PseudoRct(tx) || if tx.version > 1 then i < |tx.outPk| else tx.vout[i].amount != 0)
  }

  /** The key images are all different, so are the hashes, and everything can be stored. */
  ghost predicate Acceptable(h: Hashing, stored: seq<Stored>) {
    && Distinct(StoredImages(h, stored)) && DistinctHashes(stored)
    && forall i :: 0 <= i < |stored| ==> Supported(stored[i].tx.base.vin) && Storable(stored[i].tx.base)
  }

  ghost predicate DistinctHashes(stored: seq<Stored>) {
    forall i, j :: 0 <= i < j < |stored| ==> stored[i].hash != stored[j].hash
  }

  lemma AddOutputAccepts(o: Outputs, hash: Hash, amount: nat, target: Option<Key>, local: nat,
                         unlockTime: nat, height: nat, commitment: Option<Key>)
    requires DenseOutputs(o)
    ensures AddOutput(o, hash, amount, target, local, unlockTime, height, commitment).Success?
            <==> target.Some? && (amount == 0 ==> commitment.Some?)
  {
    assert Dense(Bucket(o.outputAmounts, amount));
  }

  lemma StoreOutputAccepts(h: Hashing, o: Outputs, tx: TxBase, hash: Hash, height: nat, i: nat)
    requires DenseOutputs(o) && i < |tx.vout|
    ensures StoreOutput(h, o, tx, hash, height, i).Success? <==> StorableAt(tx, i)
  {
    hide AddOutput, PseudoRct, DenseOutputs;
    var target, amount := tx.vout[i].target, tx.vout[i].amount;
    AddOutputAccepts(o, hash, 0, target, i, tx.unlockTime, height, Some(h.zeroCommit(amount)));
    AddOutputAccepts(o, hash, amount, target, i, tx.unlockTime, height, None);
    if i < |tx.outPk| {
      AddOutputAccepts(o, hash, amount, target, i, tx.unlockTime, height, Some(tx.outPk[i]));
    }
  }

  lemma {:induction false} StoreOutputsAccepts(h: Hashing, o: Outputs, tx: TxBase, hash: Hash, height: nat, i: nat, indices: seq<nat>)
    requires DenseOutputs(o) && i == |indices| <= |tx.vout|
    ensures StoreOutputs(h, o, tx, hash, height, i, indices).Success? <==> forall j :: i <= j < |tx.vout| ==> StorableAt(tx, j)
    decreases |tx.vout| - i
  {
    hide StoreOutput, StorableAt, DenseOutputs, OutputAt, OutputsExtend, Bucket;
    if i < |tx.vout| {
      StoreOutputAccepts(h, o, tx, hash, height, i);
      if StorableAt(tx, i) {
        StoreOutputPlaces(h, o, tx, hash, height, i);
        var (next, index) := StoreOutput(h, o, tx, hash, height, i).value;
        StoreOutputsAccepts(h, next, tx, hash, height, i + 1, indices + [index]);
      }
    }
  }

  lemma TxDataAccepts(h: Hashing, txs: Txs, o: Outputs, stored: seq<Stored>, tx: Transaction, hash: Hash, height: nat)
    requires TablesHold(h, txs, o, stored)
    ensures AddTxData(h, txs, tx, hash, height).Success? <==> hash !in txs.txIndices
    ensures forall indices :: Append(txs.txOutputs, |txs.txsPruned|, indices).Some?
  {
    hide OutputAt, DenseOutputs, Find;
    if stored != [] {
      assert Recorded(h, txs, o, stored[|stored| - 1], |stored| - 1);
    }
  }

  lemma HashIsNew(h: Hashing, txs: Txs, o: Outputs, stored: seq<Stored>, hash: Hash)
    requires TablesHold(h, txs, o, stored)
    ensures hash in txs.txIndices <==> exists i :: 0 <= i < |stored| && stored[i].hash == hash
  {
    hide DenseOutputs, OutputAt, Find;
    if i :| 0 <= i < |stored| && stored[i].hash == hash {
      assert Recorded(h, txs, o, stored[i], i);
    }
  }

  /** A transaction is added exactly when it keeps the stored transactions acceptable. */
  lemma TransactionAccepted(h: Hashing, s: State, tx: Transaction, hash: Hash, stored: seq<Stored>)
    requires Holds(h, s, stored) && Acceptable(h, stored)
    ensures AddTransaction(h, s, tx, hash).Success? <==> Acceptable(h, stored + [Stored(tx, hash, |s.chain.blocks|)])
  {
    hide Spend, StoreOutputs, AddTxData, DenseOutputs, TablesHold, CountsHold, Append, Storable, Supported, DistinctHashes;
    var height := |s.chain.blocks|;
    var st := Stored(tx, hash, height);
    DenseOf(h, s.txs, s.outs, stored);
    SpendIsFresh(h, s.spentKeys, tx.base.vin);
    SpendAccepts(h, s.spentKeys, stored, st);
    TxDataAccepts(h, s.txs, s.outs, stored, tx, hash, height);
    HashIsNew(h, s.txs, s.outs, stored, hash);
    HashesExtend(stored, st);
    StoreOutputsAccepts(h, s.outs, tx.base, hash, height, 0, []);
    AddTransactionParts(h, s, tx, hash);
    var all := stored + [st];
    assert forall i :: 0 <= i < |stored| ==> all[i] == stored[i];
    assert all[|stored|] == st;
    StorableParts(tx.base);
  }

  lemma StorableParts(tx: TxBase)
    ensures Storable(tx) <==> forall j :: 0 <= j < |tx.vout| ==> StorableAt(tx, j)
    ensures Supported(tx.vin) <==> forall i :: 0 <= i < |tx.vin| ==> !tx.vin[i].OtherInput?
  {
    hide StorableAt;
  }

  lemma DenseOf(h: Hashing, txs: Txs, o: Outputs, stored: seq<Stored>)
    requires TablesHold(h, txs, o, stored)
    ensures DenseOutputs(o)
  {
  }

  lemma AddTransactionParts(h: Hashing, s: State, tx: Transaction, hash: Hash)
    requires forall indices :: Append(s.txs.txOutputs, |s.txs.txsPruned|, indices).Some?
    ensures AddTransaction(h, s, tx, hash).Success? <==>
            && Spend(h, s.spentKeys, tx.base.vin).Success?
            && AddTxData(h, s.txs, tx, hash, |s.chain.blocks|).Success?
            && StoreOutputs(h, s.outs, tx.base, hash, |s.chain.blocks|, 0, []).Success?
  {
    hide Spend, StoreOutputs, Append;
  }

  lemma SpendAccepts(h: Hashing, keys: set<KeyImage>, stored: seq<Stored>, st: Stored)
    requires KeysHold(h, keys, stored)
    ensures var images := Images(h, st.tx.base.vin);
            Distinct(StoredImages(h, stored + [st])) <==> Distinct(images) && Elements(images) !! keys
  {
    hide Images;
    assert (stored + [st])[..|stored|] == stored;
    DistinctConcat(StoredImages(h, stored), Images(h, st.tx.base.vin));
  }

  lemma DistinctConcat<T(!new)>(a: seq<T>, b: seq<T>)
    ensures Distinct(a + b) <==> Distinct(a) && Distinct(b) && Elements(a) !! Elements(b)
  {
    var c := a + b;
    assert forall i :: 0 <= i < |a| ==> c[i] == a[i];
    assert forall i :: 0 <= i < |b| ==> c[|a| + i] == b[i];
    assert forall i :: 0 <= i < |a| ==> a[i] in Elements(a);
    assert forall i :: 0 <= i < |b| ==> b[i] in Elements(b);
    if Distinct(c) {
      forall i, j | 0 <= i < |a| && 0 <= j < |b| ensures a[i] != b[j] {
        assert c[i] != c[|a| + j];
      }
    }
  }

  lemma HashesExtend(stored: seq<Stored>, st: Stored)
    ensures DistinctHashes(stored + [st]) <==> DistinctHashes(stored) && !exists i :: 0 <= i < |stored| && stored[i].hash == st.hash
  {
    var all, n := stored + [st], |stored|;
    assert forall i :: 0 <= i < n ==> all[i] == stored[i];
    if DistinctHashes(all) {
      forall i | 0 <= i < n ensures stored[i].hash != st.hash {
        assert all[i].hash != all[n].hash;
      }
    }
  }

  lemma AcceptablePrefix(h: Hashing, a: seq<Stored>, b: seq<Stored>)
    requires Acceptable(h, a + b)
    ensures Acceptable(h, a)
  {
    hide Supported, Storable, StoredImages;
    assert forall i :: 0 <= i < |a| ==> (a + b)[i] == a[i];
    ImagesPrefix(h, a, b);
  }

  lemma {:induction false} ImagesPrefix(h: Hashing, a: seq<Stored>, b: seq<Stored>)
    ensures StoredImages(h, a) <= StoredImages(h, a + b)
  {
    hide Images;
    if b == [] {
      assert a + b == a;
    } else {
      ImagesPrefix(h, a, b[..|b| - 1]);
      assert (a + b)[..|a + b| - 1] == a + b[..|b| - 1];
    }
  }

  // ----- Blocks -----

  lemma {:induction false} TransactionsAccepted(h: Hashing, s: State, txs: seq<Transaction>, hashes: seq<Hash>, i: nat, stored: seq<Stored>)
    requires i <= |txs| == |hashes| && Holds(h, s, stored) && Acceptable(h, stored)
    ensures AddTransactions(h, s, txs, hashes, i).Success? <==> Acceptable(h, stored + StoredFrom(txs, hashes, i, |s.chain.blocks|))
    decreases |txs| - i
  {
    hide Holds, Acceptable, AddTransaction;
    var height := |s.chain.blocks|;
    var rest := StoredFrom(txs, hashes, i, height);
    if i == |txs| {
      assert stored + rest == stored;
    } else {
      var st := Stored(txs[i], hashes[i], height);
      var after := StoredFrom(txs, hashes, i + 1, height);
      assert rest == [st] + after;
      assert stored + rest == stored + [st] + after;
      TransactionAccepted(h, s, txs[i], hashes[i], stored);
      if Acceptable(h, stored + [st]) {
        StillHolds(h, s, txs[i], hashes[i], stored);
        TransactionsAccepted(h, AddTransaction(h, s, txs[i], hashes[i]).value, txs, hashes, i + 1, stored + [st]);
      } else if Acceptable(h, stored + rest) {
        AcceptablePrefix(h, stored + [st], after);
      }
    }
  }

  /** The block continues the chain of blocks. */
  ghost predicate Continues(h: Hashing, entries: seq<Entry>, e: Entry) {
    && (forall i :: 0 <= i < |entries| ==> h.blockHash(entries[i].block) != h.blockHash(e.block))
    && if entries == [] then e.block.majorVersion < 4 else e.block.prevId == h.blockHash(entries[|entries| - 1].block)
  }

  lemma BlockDataAccepted(h: Hashing, b: ChainTables, e: Entry, entries: seq<Entry>, n: nat)
    requires ChainHolds(h, b, entries)
    ensures AddBlockData(h, b, e, n).Success? <==> Continues(h, entries, e)
  {
    hide Find, CumulativeRct;
    forall i | 0 <= i < |entries|
      ensures b.blockInfo[i].key == i && b.blocks[i].key == i
      ensures h.blockHash(entries[i].block) in b.blockHeights && b.blockHeights[h.blockHash(entries[i].block)] == i
    {
      assert BlockAt(h, b, entries, i);
    }
    if entries != [] {
      FindDense(b.blockInfo, |entries| - 1);
    }
  }

  lemma BlockAccepted(h: Hashing, s: State, e: Entry, entries: seq<Entry>, stored: seq<Stored>)
    requires Holds(h, s, stored) && Acceptable(h, stored) && ChainHolds(h, s.chain, entries)
    ensures AddBlock(h, s, e).Success? <==>
            |e.txs| == |e.block.txHashes| && Acceptable(h, stored + StoredOfBlock(h, e, |entries|)) && Continues(h, entries, e)
  {
    hide Holds, Acceptable, Continues, ChainHolds, AddTransaction, AddTransactions, AddBlockData;
    ChainLength(h, s.chain, entries);
    if |e.txs| == |e.block.txHashes| {
      var height, minerHash := |entries|, h.txHash(e.block.minerTx);
      var first, rest := Stored(e.block.minerTx, minerHash, height), StoredFrom(e.txs, e.block.txHashes, 0, height);
      assert stored + StoredOfBlock(h, e, height) == stored + [first] + rest;
      BlockDataAccepted(h, s.chain, e, entries, BlockRctOuts(e));
      TransactionAccepted(h, s, e.block.minerTx, minerHash, stored);
      if Acceptable(h, stored + [first]) {
        StillHolds(h, s, e.block.minerTx, minerHash, stored);
        var coinbase := AddTransaction(h, s, e.block.minerTx, minerHash).value;
        TransactionsAccepted(h, coinbase, e.txs, e.block.txHashes, 0, stored + [first]);
        if Acceptable(h, stored + [first] + rest) {
          TransactionsHold(h, coinbase, e.txs, e.block.txHashes, 0, stored + [first]);
        }
      } else if Acceptable(h, stored + [first] + rest) {
        AcceptablePrefix(h, stored + [first], rest);
      }
    }
  }

  lemma {:induction false} ReplayAcceptable(h: Hashing, entries: seq<Entry>)
    requires Replay(h, entries).Success?
    ensures Matched(entries) && Acceptable(h, StoredOf(h, entries))
  {
    hide AddBlock, Acceptable, Holds, ChainHolds, Continues;
    if entries == [] {
      NothingAcceptable(h);
    } else {
      var before, e := entries[..|entries| - 1], entries[|entries| - 1];
      ReplayHolds(h, before);
      ReplayAcceptable(h, before);
      BlockAccepted(h, Replay(h, before).value, e, before, StoredOf(h, before));
    }
  }

  lemma NothingAcceptable(h: Hashing)
    ensures Acceptable(h, [])
  {
  }

  /**
   * After any clean run, add_block succeeds if and only if the block lists one hash per transaction, all
   * key images and all transaction hashes stay different, every input and output can be stored, and
   * the block is new and follows the last surviving one.
   */
  lemma AddSucceeds(h: Hashing, calls: seq<Call>, e: Entry)
    requires Clean(h, calls)
    ensures Matched(Surviving(h, calls))
    ensures var entries := Surviving(h, calls);
            AddBlock(h, Run(h, calls).tables, e).Success? <==>
            && |e.txs| == |e.block.txHashes|
            && Acceptable(h, StoredOf(h, entries) + StoredOfBlock(h, e, |entries|))
            && Continues(h, entries, e)
  {
    hide AddBlock, Acceptable, Holds, ChainHolds, Continues, Run, Surviving, Replay;
    var entries := Surviving(h, calls);
    RunIsReplay(h, calls);
    ReplayHolds(h, entries);
    ReplayAcceptable(h, entries);
    BlockAccepted(h, Run(h, calls).tables, e, entries, StoredOf(h, entries));
  }
}
