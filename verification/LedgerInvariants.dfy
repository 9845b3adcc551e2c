/** What holds of the tables after adding blocks to the empty database. */
module LedgerInvariants {
  import opened Outcomes
  import opened KeyedTables
  import opened Ledger
  import opened Reorganization

  /** A transaction of a surviving block, the hash it is stored under and its block's height. */
  datatype Stored = Stored(tx: Transaction, hash: Hash, height: nat)

  // ----- Outputs -----

  ghost predicate DenseOutputs(o: Outputs) {
    Dense(o.outputTxs) && forall a :: Dense(Bucket(o.outputAmounts, a))
  }

  ghost predicate OutputsExtend(o: Outputs, p: Outputs) {
    o.outputTxs <= p.outputTxs && forall a :: Bucket(o.outputAmounts, a) <= Bucket(p.outputAmounts, a)
  }

  /** The commitment an output is stored with. */
  function CommitmentOf(h: Hashing, tx: TxBase, i: nat): Option<Key>
    requires i < |tx.vout|
  {
    if PseudoRct(tx) then Some(h.zeroCommit(tx.vout[i].amount))
    else if tx.version > 1 && tx.vout[i].amount == 0 && i < |tx.outPk| then Some(tx.outPk[i])
    else None
  }

  /** The index points, in the bucket the rule chooses, to output i itself. */
  ghost predicate OutputAt(h: Hashing, o: Outputs, tx: TxBase, hash: Hash, height: nat, i: nat, index: nat)
    requires i < |tx.vout|
  {
    var bucket := Bucket(o.outputAmounts, BucketOf(tx, i));
    && index < |bucket| && bucket[index].key == index
    && var r := bucket[index].value;
    && Some(r.pubkey) == tx.vout[i].target && r.unlockTime == tx.unlockTime && r.height == height
    && r.commitment == CommitmentOf(h, tx, i)
    && r.outputId < |o.outputTxs| && o.outputTxs[r.outputId] == Record(r.outputId, OutTx(hash, i))
  }

  /** How many of the first n outputs go to bucket a. */
  function CountIn(tx: TxBase, a: nat, n: nat): nat
    requires n <= |tx.vout|
  {
    if n == 0 then 0 else CountIn(tx, a, n - 1) + if BucketOf(tx, n - 1) == a then 1 else 0
  }

  lemma AddOutputAppends(o: Outputs, hash: Hash, amount: nat, target: Option<Key>, local: nat,
                         unlockTime: nat, height: nat, commitment: Option<Key>)
    requires DenseOutputs(o)
    requires AddOutput(o, hash, amount, target, local, unlockTime, height, commitment).Success?
    ensures var (p, index) := AddOutput(o, hash, amount, target, local, unlockTime, height, commitment).value;
            var id, bucket := |o.outputTxs|, Bucket(o.outputAmounts, amount);
            && target.Some? && (amount == 0 ==> commitment.Some?)
            && DenseOutputs(p) && index == |bucket|
            && p.outputTxs == o.outputTxs + [Record(id, OutTx(hash, local))]
            && Bucket(p.outputAmounts, amount)
               == bucket + [Record(index, OutKey(id, target.value, unlockTime, height, if amount == 0 then commitment else None))]
            && forall a :: a != amount ==> Bucket(p.outputAmounts, a) == Bucket(o.outputAmounts, a)
  {
    var (p, index) := AddOutput(o, hash, amount, target, local, unlockTime, height, commitment).value;
    forall a ensures Dense(Bucket(p.outputAmounts, a)) {
      assert Dense(Bucket(o.outputAmounts, a));
    }
  }

  lemma StoreOutputPlaces(h: Hashing, o: Outputs, tx: TxBase, hash: Hash, height: nat, i: nat)
    requires DenseOutputs(o) && i < |tx.vout| && StoreOutput(h, o, tx, hash, height, i).Success?
    ensures var (p, index) := StoreOutput(h, o, tx, hash, height, i).value;
            && DenseOutputs(p) && OutputsExtend(o, p) && OutputAt(h, p, tx, hash, height, i, index)
            && |p.outputTxs| == |o.outputTxs| + 1
            && forall a :: |Bucket(p.outputAmounts, a)| == |Bucket(o.outputAmounts, a)| + if BucketOf(tx, i) == a then 1 else 0
  {
    hide AddOutput, PseudoRct, Bucket;
    var target, amount := tx.vout[i].target, tx.vout[i].amount;
    if PseudoRct(tx) {
      AddOutputAppends(o, hash, 0, target, i, tx.unlockTime, height, Some(h.zeroCommit(amount)));
    } else {
      AddOutputAppends(o, hash, amount, target, i, tx.unlockTime, height, if tx.version > 1 then Some(tx.outPk[i]) else None);
    }
  }

  lemma OutputStays(h: Hashing, o: Outputs, p: Outputs, tx: TxBase, hash: Hash, height: nat, i: nat, index: nat)
    requires i < |tx.vout| && OutputAt(h, o, tx, hash, height, i, index) && OutputsExtend(o, p)
    ensures OutputAt(h, p, tx, hash, height, i, index)
  {
    hide PseudoRct, Bucket, CommitmentOf;
    var b := BucketOf(tx, i);
    assert Bucket(o.outputAmounts, b) <= Bucket(p.outputAmounts, b);
  }

  lemma {:induction false} StoreOutputsPlaces(h: Hashing, o: Outputs, tx: TxBase, hash: Hash, height: nat, i: nat, indices: seq<nat>)
    requires DenseOutputs(o) && i == |indices| <= |tx.vout| && StoreOutputs(h, o, tx, hash, height, i, indices).Success?
    ensures var (p, all) := StoreOutputs(h, o, tx, hash, height, i, indices).value;
            && DenseOutputs(p) && OutputsExtend(o, p) && |all| == |tx.vout| && all[..i] == indices
            && (forall j :: i <= j < |tx.vout| ==> OutputAt(h, p, tx, hash, height, j, all[j]))
            && |p.outputTxs| == |o.outputTxs| + |tx.vout| - i
            && forall a :: |Bucket(p.outputAmounts, a)| == |Bucket(o.outputAmounts, a)| + CountIn(tx, a, |tx.vout|) - CountIn(tx, a, i)
    decreases |tx.vout| - i
  {
    hide StoreOutput, OutputAt, DenseOutputs, Bucket, BucketOf;
    if i < |tx.vout| {
      var (next, index) := StoreOutput(h, o, tx, hash, height, i).value;
      StoreOutputPlaces(h, o, tx, hash, height, i);
      StoreOutputsPlaces(h, next, tx, hash, height, i + 1, indices + [index]);
      var (p, all) := StoreOutputs(h, o, tx, hash, height, i, indices).value;
      assert all[i] == all[..i + 1][i] == index;
      assert all[..i] == all[..i + 1][..i] == indices;
      OutputStays(h, next, p, tx, hash, height, i, index);
      forall a ensures |Bucket(p.outputAmounts, a)| == |Bucket(o.outputAmounts, a)| + CountIn(tx, a, |tx.vout|) - CountIn(tx, a, i) {
        assert CountIn(tx, a, i + 1) == CountIn(tx, a, i) + if BucketOf(tx, i) == a then 1 else 0;
      }
      forall a ensures Bucket(o.outputAmounts, a) <= Bucket(p.outputAmounts, a) {
        assert Bucket(o.outputAmounts, a) <= Bucket(next.outputAmounts, a);
      }
    }
  }

  lemma {:induction false} CountZeroAmounts(tx: TxBase, n: nat)
    requires n <= |tx.vout|
    ensures CountIn(tx, 0, n) == if PseudoRct(tx) then n else ZeroAmounts(tx.vout[..n])
  {
    hide PseudoRct;
    if n > 0 {
      CountZeroAmounts(tx, n - 1);
      assert tx.vout[..n][..n - 1] == tx.vout[..n - 1];
    }
  }

  /** The outputs counted for a transaction are those stored in bucket 0. */
  lemma NumRctOutsIsCount(tx: TxBase)
    ensures NumRctOuts(tx) == CountIn(tx, 0, |tx.vout|)
  {
    CountZeroAmounts(tx, |tx.vout|);
    assert tx.vout[..|tx.vout|] == tx.vout;
  }

  // ----- Transactions -----

  /** The transaction is stored whole under its id, and its indices point to its own outputs. */
  ghost predicate Recorded(h: Hashing, txs: Txs, o: Outputs, st: Stored, id: nat) {
    var tx := st.tx.base;
    && st.hash in txs.txIndices && txs.txIndices[st.hash] == TxIndex(id, tx.unlockTime, st.height)
    && id < |txs.txsPruned| && txs.txsPruned[id] == Record(id, tx)
    && id < |txs.txsPrunable| && txs.txsPrunable[id] == Record(id, st.tx.prunable)
    && Find(txs.txsPrunableHash, id) == (if tx.version > 1 then Some(h.prunableHash(st.tx)) else None)
    && id < |txs.txOutputs| && txs.txOutputs[id].key == id && |txs.txOutputs[id].value| == |tx.vout|
    && forall i :: 0 <= i < |tx.vout| ==> OutputAt(h, o, tx, st.hash, st.height, i, txs.txOutputs[id].value[i])
  }

  /** The transaction tables hold exactly the given transactions, in order. */
  ghost predicate TablesHold(h: Hashing, txs: Txs, o: Outputs, stored: seq<Stored>) {
    && DenseOutputs(o)
    && |txs.txsPruned| == |txs.txsPrunable| == |txs.txOutputs| == |stored|
    && (forall i :: 0 <= i < |txs.txsPrunableHash| ==> txs.txsPrunableHash[i].key < |stored|)
    && (forall id :: 0 <= id < |stored| ==> Recorded(h, txs, o, stored[id], id))
    && (forall hash :: hash in txs.txIndices ==> txs.txIndices[hash].txId < |stored| && stored[txs.txIndices[hash].txId].hash == hash)
  }

  function OutputCount(stored: seq<Stored>): nat {
    if stored == [] then 0 else OutputCount(stored[..|stored| - 1]) + |stored[|stored| - 1].tx.base.vout|
  }

  function BucketCount(stored: seq<Stored>, a: nat): nat {
    if stored == [] then 0
    else
      var tx := stored[|stored| - 1].tx.base;
      BucketCount(stored[..|stored| - 1], a) + CountIn(tx, a, |tx.vout|)
  }

  /** Every bucket has as many outputs as the bucket rule sends to it, and there are no others. */
  ghost predicate CountsHold(o: Outputs, stored: seq<Stored>) {
    && |o.outputTxs| == OutputCount(stored)
    && forall a :: |Bucket(o.outputAmounts, a)| == BucketCount(stored, a)
  }

  /** The key images of all inputs, in order. */
  function StoredImages(h: Hashing, stored: seq<Stored>): seq<KeyImage> {
    if stored == [] then []
    else StoredImages(h, stored[..|stored| - 1]) + Images(h, stored[|stored| - 1].tx.base.vin)
  }

  /** The spent keys are the key images of the inputs, and no two inputs share one. */
  ghost predicate KeysHold(h: Hashing, keys: set<KeyImage>, stored: seq<Stored>) {
    var images := StoredImages(h, stored);
    keys == Elements(images) && Distinct(images)
  }

  ghost predicate Holds(h: Hashing, s: State, stored: seq<Stored>) {
    TablesHold(h, s.txs, s.outs, stored) && CountsHold(s.outs, stored) && KeysHold(h, s.spentKeys, stored)
  }

  lemma RecordedStays(h: Hashing, txs: Txs, o: Outputs, txs': Txs, o': Outputs, st: Stored, id: nat)
    requires Recorded(h, txs, o, st, id) && OutputsExtend(o, o')
    requires txs.txsPruned <= txs'.txsPruned && txs.txsPrunable <= txs'.txsPrunable && txs.txOutputs <= txs'.txOutputs
    requires Find(txs'.txsPrunableHash, id) == Find(txs.txsPrunableHash, id)
    requires st.hash in txs'.txIndices && txs'.txIndices[st.hash] == txs.txIndices[st.hash]
    ensures Recorded(h, txs', o', st, id)
  {
    hide OutputAt, OutputsExtend, Find;
    var tx := st.tx.base;
    forall i | 0 <= i < |tx.vout| ensures OutputAt(h, o', tx, st.hash, st.height, i, txs'.txOutputs[id].value[i]) {
      OutputStays(h, o, o', tx, st.hash, st.height, i, txs.txOutputs[id].value[i]);
    }
  }

  lemma TablesStillHold(h: Hashing, s: State, tx: Transaction, hash: Hash, stored: seq<Stored>)
    requires TablesHold(h, s.txs, s.outs, stored) && AddTransaction(h, s, tx, hash).Success?
    ensures var after := AddTransaction(h, s, tx, hash).value;
            TablesHold(h, after.txs, after.outs, stored + [Stored(tx, hash, |s.chain.blocks|)])
  {
    hide Recorded, DenseOutputs, OutputsExtend, Spend, StoreOutputs, OutputAt, Find, Delete;
    var after := AddTransaction(h, s, tx, hash).value;
    var height, id := |s.chain.blocks|, |stored|;
    var st := Stored(tx, hash, height);
    StoreOutputsPlaces(h, s.outs, tx.base, hash, height, 0, []);
    var indices := StoreOutputs(h, s.outs, tx.base, hash, height, 0, []).value.1;
    assert after.txs.txsPruned == s.txs.txsPruned + [Record(id, tx.base)];
    assert after.txs.txsPrunable == s.txs.txsPrunable + [Record(id, tx.prunable)];
    assert after.txs.txOutputs == s.txs.txOutputs + [Record(id, indices)];
    forall k ensures k != id ==> Find(after.txs.txsPrunableHash, k) == Find(s.txs.txsPrunableHash, k) {
      FindAppended(s.txs.txsPrunableHash, id, h.prunableHash(tx), k);
    }
    DeleteAppended(s.txs.txsPrunableHash, id, h.prunableHash(tx));
    FindAbove(s.txs.txsPrunableHash, id);
    forall k | 0 <= k < id ensures Recorded(h, after.txs, after.outs, stored[k], k) {
      HashIsOld(h, s.txs, s.outs, stored[k], k, hash);
      RecordedStays(h, s.txs, s.outs, after.txs, after.outs, stored[k], k);
    }
    NewlyRecorded(h, after.txs, after.outs, st, id);
  }

  lemma HashIsOld(h: Hashing, txs: Txs, o: Outputs, st: Stored, id: nat, hash: Hash)
    requires Recorded(h, txs, o, st, id) && hash !in txs.txIndices
    ensures st.hash in txs.txIndices && st.hash != hash
  {
  }

  lemma NewlyRecorded(h: Hashing, txs: Txs, o: Outputs, st: Stored, id: nat)
    requires st.hash in txs.txIndices && txs.txIndices[st.hash] == TxIndex(id, st.tx.base.unlockTime, st.height)
    requires id < |txs.txsPruned| && txs.txsPruned[id] == Record(id, st.tx.base)
    requires id < |txs.txsPrunable| && txs.txsPrunable[id] == Record(id, st.tx.prunable)
    requires Find(txs.txsPrunableHash, id) == if st.tx.base.version > 1 then Some(h.prunableHash(st.tx)) else None
    requires id < |txs.txOutputs| && txs.txOutputs[id].key == id && |txs.txOutputs[id].value| == |st.tx.base.vout|
    requires forall i :: 0 <= i < |st.tx.base.vout| ==> OutputAt(h, o, st.tx.base, st.hash, st.height, i, txs.txOutputs[id].value[i])
    ensures Recorded(h, txs, o, st, id)
  {
    hide OutputAt, Find;
  }

  lemma CountsStillHold(h: Hashing, s: State, tx: Transaction, hash: Hash, stored: seq<Stored>)
    requires DenseOutputs(s.outs) && CountsHold(s.outs, stored) && AddTransaction(h, s, tx, hash).Success?
    ensures CountsHold(AddTransaction(h, s, tx, hash).value.outs, stored + [Stored(tx, hash, |s.chain.blocks|)])
  {
    hide DenseOutputs, OutputsExtend, Spend, StoreOutputs, OutputAt, AddTxData, Bucket;
    var all := stored + [Stored(tx, hash, |s.chain.blocks|)];
    assert all[..|stored|] == stored;
    StoreOutputsPlaces(h, s.outs, tx.base, hash, |s.chain.blocks|, 0, []);
    var after := AddTransaction(h, s, tx, hash).value.outs;
    forall a ensures |Bucket(after.outputAmounts, a)| == BucketCount(all, a) {
      assert BucketCount(all, a) == BucketCount(stored, a) + CountIn(tx.base, a, |tx.base.vout|);
      assert CountIn(tx.base, a, 0) == 0;
    }
  }

  lemma KeysStillHold(h: Hashing, keys: set<KeyImage>, st: Stored, stored: seq<Stored>)
    requires KeysHold(h, keys, stored) && Spend(h, keys, st.tx.base.vin).Success?
    ensures KeysHold(h, Spend(h, keys, st.tx.base.vin).value, stored + [st])
  {
    hide Spend, Images;
    SpendIsFresh(h, keys, st.tx.base.vin);
    assert (stored + [st])[..|stored|] == stored;
    var old', new' := StoredImages(h, stored), Images(h, st.tx.base.vin);
    assert Elements(old' + new') == Elements(old') + Elements(new');
    assert forall i :: 0 <= i < |old'| ==> old'[i] in Elements(old');
    assert forall i :: 0 <= i < |new'| ==> new'[i] in Elements(new');
  }

  lemma StillHolds(h: Hashing, s: State, tx: Transaction, hash: Hash, stored: seq<Stored>)
    requires Holds(h, s, stored) && AddTransaction(h, s, tx, hash).Success?
    ensures var after := AddTransaction(h, s, tx, hash).value;
            after.chain == s.chain && Holds(h, after, stored + [Stored(tx, hash, |s.chain.blocks|)])
  {
    hide Spend, AddTxData, StoreOutputs, CountsHold, KeysHold, Recorded, DenseOutputs, Find;
    TablesStillHold(h, s, tx, hash, stored);
    CountsStillHold(h, s, tx, hash, stored);
    KeysStillHold(h, s.spentKeys, Stored(tx, hash, |s.chain.blocks|), stored);
  }

  // ----- Blocks -----

  /** The transactions of a block at a height. */
  function StoredOfBlock(h: Hashing, e: Entry, height: nat): seq<Stored>
    requires |e.txs| == |e.block.txHashes|
  {
    [Stored(e.block.minerTx, h.txHash(e.block.minerTx), height)] + StoredFrom(e.txs, e.block.txHashes, 0, height)
  }

  function StoredFrom(txs: seq<Transaction>, hashes: seq<Hash>, i: nat, height: nat): (r: seq<Stored>)
    requires i <= |txs| == |hashes|
    ensures |r| == |txs| - i && forall k :: 0 <= k < |txs| - i ==> r[k] == Stored(txs[i + k], hashes[i + k], height)
  {
    seq(|txs| - i, k requires 0 <= k < |txs| - i => Stored(txs[i + k], hashes[i + k], height))
  }

  ghost predicate Matched(entries: seq<Entry>) {
    forall i :: 0 <= i < |entries| ==> |entries[i].txs| == |entries[i].block.txHashes|
  }

  /** The transactions of a chain. */
  ghost function StoredOf(h: Hashing, entries: seq<Entry>): seq<Stored>
    requires Matched(entries)
  {
    if entries == [] then []
    else StoredOf(h, entries[..|entries| - 1]) + StoredOfBlock(h, entries[|entries| - 1], |entries| - 1)
  }

  lemma {:induction false} TransactionsHold(h: Hashing, s: State, txs: seq<Transaction>, hashes: seq<Hash>, i: nat, stored: seq<Stored>)
    requires i <= |txs| == |hashes| && Holds(h, s, stored) && AddTransactions(h, s, txs, hashes, i).Success?
    ensures var after := AddTransactions(h, s, txs, hashes, i).value;
            after.chain == s.chain && Holds(h, after, stored + StoredFrom(txs, hashes, i, |s.chain.blocks|))
    decreases |txs| - i
  {
    hide Holds, AddTransaction;
    var height := |s.chain.blocks|;
    var new' := StoredFrom(txs, hashes, i, height);
    if i == |txs| {
      assert stored + new' == stored;
    } else {
      var st := Stored(txs[i], hashes[i], height);
      var next := AddTransaction(h, s, txs[i], hashes[i]).value;
      StillHolds(h, s, txs[i], hashes[i], stored);
      TransactionsHold(h, next, txs, hashes, i + 1, stored + [st]);
      var rest := StoredFrom(txs, hashes, i + 1, height);
      assert new' == [st] + rest;
      assert stored + new' == stored + [st] + rest;
    }
  }

  /** add_block in three steps. */
  lemma AddBlockSteps(h: Hashing, s: State, e: Entry, after: State) returns (coinbase: State, all: State)
    requires AddBlock(h, s, e) == Success(after)
    ensures |e.txs| == |e.block.txHashes|
    ensures AddTransaction(h, s, e.block.minerTx, h.txHash(e.block.minerTx)) == Success(coinbase)
    ensures AddTransactions(h, coinbase, e.txs, e.block.txHashes, 0) == Success(all)
    ensures AddBlockData(h, all.chain, e, BlockRctOuts(e)) == Success(after.chain)
    ensures after == all.(chain := after.chain)
  {
    hide AddTransaction, AddTransactions, AddBlockData;
    coinbase := AddTransaction(h, s, e.block.minerTx, h.txHash(e.block.minerTx)).value;
    all := AddTransactions(h, coinbase, e.txs, e.block.txHashes, 0).value;
  }

  lemma BlockHolds(h: Hashing, s: State, e: Entry, stored: seq<Stored>, after: State)
    requires Holds(h, s, stored) && AddBlock(h, s, e) == Success(after)
    ensures |e.txs| == |e.block.txHashes|
    ensures Holds(h, after, stored + StoredOfBlock(h, e, |s.chain.blocks|))
    ensures AddBlockData(h, s.chain, e, BlockRctOuts(e)) == Success(after.chain)
  {
    hide AddBlock, AddTransaction, AddTransactions, AddBlockData, Holds;
    var height, minerHash := |s.chain.blocks|, h.txHash(e.block.minerTx);
    var first := Stored(e.block.minerTx, minerHash, height);
    var coinbase, all := AddBlockSteps(h, s, e, after);
    StillHolds(h, s, e.block.minerTx, minerHash, stored);
    TransactionsHold(h, coinbase, e.txs, e.block.txHashes, 0, stored + [first]);
    var rest := StoredFrom(e.txs, e.block.txHashes, 0, height);
    assert stored + ([first] + rest) == stored + [first] + rest;
    HoldsOfParts(h, all, after, stored + StoredOfBlock(h, e, height));
  }

  lemma HoldsOfParts(h: Hashing, s: State, after: State, stored: seq<Stored>)
    requires Holds(h, s, stored) && after == s.(chain := after.chain)
    ensures Holds(h, after, stored)
  {
    hide TablesHold, CountsHold, KeysHold;
  }
}
