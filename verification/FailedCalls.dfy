/**
 * What a call of the database layer leaves in the tables when it throws: everything written before
 * the check that failed.
 */
module FailedCalls {
  import opened Outcomes
  import opened KeyedTables
  import opened Ledger
  import opened Reorganization

  // ----- Adding -----

  function SpendLeft(h: Hashing, keys: set<KeyImage>, vin: seq<Input>): set<KeyImage>
    decreases |vin|
  {
    if vin == [] then keys
    else
      var first := SpendOne(h, keys, vin[0]);
      if first.Failure? then keys else SpendLeft(h, first.value, vin[1..])
  }

  function AddOutputLeft(o: Outputs, hash: Hash, amount: nat, target: Option<Key>, local: nat, commitment: Option<Key>): Outputs {
    var outputTxs := Append(o.outputTxs, NumOutputs(o.outputTxs), OutTx(hash, local));
    if target.None? || (amount == 0 && commitment.None?) || outputTxs.None? then o
    else o.(outputTxs := outputTxs.value)
  }

  function StoreOutputLeft(h: Hashing, o: Outputs, tx: TxBase, hash: Hash, i: nat): Outputs
    requires i < |tx.vout|
  {
    var target, amount := tx.vout[i].target, tx.vout[i].amount;
    if PseudoRct(tx) then AddOutputLeft(o, hash, 0, target, i, Some(h.zeroCommit(amount)))
    else if tx.version <= 1 then AddOutputLeft(o, hash, amount, target, i, None)
    else if i >= |tx.outPk| then o
    else AddOutputLeft(o, hash, amount, target, i, Some(tx.outPk[i]))
  }

  function StoreOutputsLeft(h: Hashing, o: Outputs, tx: TxBase, hash: Hash, height: nat, i: nat): Outputs
    requires i <= |tx.vout|
    decreases |tx.vout| - i
  {
    if i == |tx.vout| then o
    else
      var next := StoreOutput(h, o, tx, hash, height, i);
      if next.Failure? then StoreOutputLeft(h, o, tx, hash, i)
      else StoreOutputsLeft(h, next.value.0, tx, hash, height, i + 1)
  }

  function AddTxDataLeft(t: Txs, tx: Transaction, hash: Hash, height: nat): Txs {
    var id := |t.txsPruned|;
    if hash in t.txIndices then t
    else
      var indexed := t.(txIndices := t.txIndices[hash := TxIndex(id, tx.base.unlockTime, height)]);
      var pruned := Append(t.txsPruned, id, tx.base);
      if pruned.None? then indexed
      else
        var prunable := Append(t.txsPrunable, id, tx.prunable);
        if prunable.None? then indexed.(txsPruned := pruned.value)
        else indexed.(txsPruned := pruned.value, txsPrunable := prunable.value)
  }

  function AddTransactionLeft(h: Hashing, s: State, tx: Transaction, hash: Hash): State {
    var height := |s.chain.blocks|;
    var keys := Spend(h, s.spentKeys, tx.base.vin);
    if keys.Failure? then s.(spentKeys := SpendLeft(h, s.spentKeys, tx.base.vin))
    else
      var data := AddTxData(h, s.txs, tx, hash, height);
      if data.Failure? then s.(spentKeys := keys.value, txs := AddTxDataLeft(s.txs, tx, hash, height))
      else
        var outs := StoreOutputs(h, s.outs, tx.base, hash, height, 0, []);
        s.(spentKeys := keys.value, txs := data.value.0,
           outs := if outs.Failure? then StoreOutputsLeft(h, s.outs, tx.base, hash, height, 0) else outs.value.0)
  }

  function AddTransactionsLeft(h: Hashing, s: State, txs: seq<Transaction>, hashes: seq<Hash>, i: nat): State
    requires i <= |txs| == |hashes|
    decreases |txs| - i
  {
    if i == |txs| then s
    else
      var next := AddTransaction(h, s, txs[i], hashes[i]);
      if next.Failure? then AddTransactionLeft(h, s, txs[i], hashes[i])
      else AddTransactionsLeft(h, next.value, txs, hashes, i + 1)
  }

  function AddBlockDataLeft(h: Hashing, b: ChainTables, e: Entry): ChainTables {
    var height := |b.blocks|;
    var blocks := Append(b.blocks, height, e.block);
    if h.blockHash(e.block) in b.blockHeights then b
    else if height > 0 && (e.block.prevId !in b.blockHeights || b.blockHeights[e.block.prevId] != height - 1) then b
    else if blocks.None? then b
    else b.(blocks := blocks.value)
  }

  function AddBlockLeft(h: Hashing, s: State, e: Entry): State {
    if |e.block.txHashes| != |e.txs| then s
    else
      var minerHash := h.txHash(e.block.minerTx);
      var coinbase := AddTransaction(h, s, e.block.minerTx, minerHash);
      if coinbase.Failure? then AddTransactionLeft(h, s, e.block.minerTx, minerHash)
      else
        var all := AddTransactions(h, coinbase.value, e.txs, e.block.txHashes, 0);
        if all.Failure? then AddTransactionsLeft(h, coinbase.value, e.txs, e.block.txHashes, 0)
        else all.value.(chain := AddBlockDataLeft(h, all.value.chain, e))
  }

  // ----- Removing -----

  function RemoveOutputsLeft(o: Outputs, tx: TxBase, indices: seq<nat>, n: nat): Outputs
    requires n <= |tx.vout|
    decreases n
  {
    if n == 0 || n - 1 >= |indices| then o
    else
      var rest := RemoveOutput(o, BucketOf(tx, n - 1), indices[n - 1]);
      if rest.Failure? then o else RemoveOutputsLeft(rest.value, tx, indices, n - 1)
  }

  function RemoveBlobsLeft(t: Txs, id: nat): Txs {
    if Find(t.txsPruned, id).None? then t
    else
      t.(txsPruned := Delete(t.txsPruned, id),
         txsPrunable := if Find(t.txsPrunable, id).Some? then Delete(t.txsPrunable, id) else t.txsPrunable)
  }

  function RemoveTxDataLeft(s: State, hash: Hash, tx: TxBase): State {
    if hash !in s.txs.txIndices then s
    else
      var id := s.txs.txIndices[hash].txId;
      var blobs := RemoveBlobs(s.txs, id, tx);
      if blobs.Failure? then s.(txs := RemoveBlobsLeft(s.txs, id))
      else
        var indices := Find(blobs.value.txOutputs, id);
        if indices.None? then s.(txs := blobs.value)
        else s.(txs := blobs.value, outs := RemoveOutputsLeft(s.outs, tx, indices.value, |tx.vout|))
  }

  function RemoveTransactionLeft(h: Hashing, s: State, hash: Hash): State {
    var tx := FindBase(s.txs, hash);
    if tx.None? then s
    else RemoveTxDataLeft(s.(spentKeys := Unspend(h, s.spentKeys, tx.value.vin)), hash, tx.value)
  }

  function RemoveTransactionsLeft(h: Hashing, s: State, hashes: seq<Hash>, n: nat): State
    requires n <= |hashes|
    decreases n
  {
    if n == 0 || Fetch(s.txs, hashes[n - 1]).None? then s
    else
      var rest := RemoveTransaction(h, s, hashes[n - 1]);
      if rest.Failure? then RemoveTransactionLeft(h, s, hashes[n - 1])
      else RemoveTransactionsLeft(h, rest.value, hashes, n - 1)
  }

  function PopBlockLeft(h: Hashing, s: State): State {
    var top := RemoveBlock(s.chain);
    if top.Failure? then s
    else
      var (chain, block) := top.value;
      var rest := RemoveTransactions(h, s.(chain := chain), block.txHashes, |block.txHashes|, []);
      if rest.Failure? then RemoveTransactionsLeft(h, s.(chain := chain), block.txHashes, |block.txHashes|)
      else RemoveTransactionLeft(h, rest.value.0, h.txHash(block.minerTx))
  }

  /** The tables after add_block, whether it returns or throws. */
  function AfterAdd(h: Hashing, s: State, e: Entry): State {
    var r := AddBlock(h, s, e);
    if r.Success? then r.value else AddBlockLeft(h, s, e)
  }

  // ----- When a failed add_block leaves no trace -----

  /** The input is refused. */
  predicate Refused(h: Hashing, keys: set<KeyImage>, input: Input) {
    input.OtherInput? || (ImageOf(h, input).Some? && ImageOf(h, input).value in keys)
  }

  /** Some input is refused, and none before it brings a key image. */
  ghost predicate RefusedAtOnce(h: Hashing, keys: set<KeyImage>, vin: seq<Input>) {
    exists j :: 0 <= j < |vin| && Refused(h, keys, vin[j]) && forall i :: 0 <= i < j ==> ImageOf(h, vin[i]).None?
  }

  /**
   * The check that fails comes before any write: the block lists the wrong number of hashes, or an
   * input of the miner transaction is refused at once, or that transaction brings no key image and
   * is already stored.
   */
  ghost predicate Untouched(h: Hashing, s: State, e: Entry) {
    var vin := e.block.minerTx.base.vin;
    || |e.block.txHashes| != |e.txs|
    || RefusedAtOnce(h, s.spentKeys, vin)
    || ((forall i :: 0 <= i < |vin| ==> vin[i].Gen?) && h.txHash(e.block.minerTx) in s.txs.txIndices)
  }

  lemma {:induction false} SpendLeftSame(h: Hashing, keys: set<KeyImage>, vin: seq<Input>)
    requires Spend(h, keys, vin).Failure?
    ensures keys <= SpendLeft(h, keys, vin)
    ensures SpendLeft(h, keys, vin) == keys <==> RefusedAtOnce(h, keys, vin)
    decreases |vin|
  {
    var first, rest := SpendOne(h, keys, vin[0]), vin[1..];
    if first.Failure? {
      assert Refused(h, keys, vin[0]);
    } else {
      SpendLeftSame(h, first.value, rest);
      assert forall i :: 0 < i < |vin| ==> vin[i] == rest[i - 1];
      if ImageOf(h, vin[0]).None? {
        assert first.value == keys;
        if RefusedAtOnce(h, keys, rest) {
          var j :| 0 <= j < |rest| && Refused(h, keys, rest[j]) && forall i :: 0 <= i < j ==> ImageOf(h, rest[i]).None?;
          assert Refused(h, keys, vin[j + 1]);
        }
        if RefusedAtOnce(h, keys, vin) {
          var j :| 0 <= j < |vin| && Refused(h, keys, vin[j]) && forall i :: 0 <= i < j ==> ImageOf(h, vin[i]).None?;
          assert Refused(h, keys, rest[j - 1]);
        }
      } else {
        assert ImageOf(h, vin[0]).value in SpendLeft(h, keys, vin);
      }
    }
  }

  lemma AddTxDataLeftIndexes(t: Txs, tx: Transaction, hash: Hash, height: nat)
    ensures AddTxDataLeft(t, tx, hash, height) == t <==> hash in t.txIndices
    ensures t.txIndices.Keys <= AddTxDataLeft(t, tx, hash, height).txIndices.Keys
    ensures hash in AddTxDataLeft(t, tx, hash, height).txIndices
  {
  }

  /** Nothing that add_transaction does removes a transaction index. */
  lemma IndicesStay(h: Hashing, s: State, tx: Transaction, hash: Hash)
    ensures s.txs.txIndices.Keys <= AddTransactionLeft(h, s, tx, hash).txs.txIndices.Keys
    ensures AddTransaction(h, s, tx, hash).Success? ==>
              var after := AddTransaction(h, s, tx, hash).value;
              s.txs.txIndices.Keys <= after.txs.txIndices.Keys && hash in after.txs.txIndices && hash !in s.txs.txIndices
  {
    hide Spend, SpendLeft, StoreOutputs, StoreOutputsLeft, AddTxData, AddTxDataLeft, Append, RemoveBlobs, Fetch;
    var height := |s.chain.blocks|;
    AddTxDataLeftIndexes(s.txs, tx, hash, height);
    if AddTxData(h, s.txs, tx, hash, height).Success? {
      TxDataAdded(h, s.txs, tx, hash, height, s.txs.txOutputs);
    }
  }

  lemma {:induction false} AllIndicesStay(h: Hashing, s: State, txs: seq<Transaction>, hashes: seq<Hash>, i: nat)
    requires i <= |txs| == |hashes|
    ensures s.txs.txIndices.Keys <= AddTransactionsLeft(h, s, txs, hashes, i).txs.txIndices.Keys
    ensures AddTransactions(h, s, txs, hashes, i).Success? ==>
              s.txs.txIndices.Keys <= AddTransactions(h, s, txs, hashes, i).value.txs.txIndices.Keys
    decreases |txs| - i
  {
    hide AddTransaction, AddTransactionLeft;
    if i < |txs| {
      IndicesStay(h, s, txs[i], hashes[i]);
      var next := AddTransaction(h, s, txs[i], hashes[i]);
      if next.Success? {
        AllIndicesStay(h, next.value, txs, hashes, i + 1);
      }
    }
  }

  lemma NoImages(h: Hashing, keys: set<KeyImage>, vin: seq<Input>)
    requires Spend(h, keys, vin).Success?
    ensures Spend(h, keys, vin).value == keys <==> forall i :: 0 <= i < |vin| ==> vin[i].Gen?
    decreases |vin|
  {
    if vin != [] {
      var rest := vin[1..];
      NoImages(h, SpendOne(h, keys, vin[0]).value, rest);
      SpendIsFresh(h, SpendOne(h, keys, vin[0]).value, rest);
      assert forall i :: 0 < i < |vin| ==> vin[i] == rest[i - 1];
    }
  }

  lemma FailedTransactionUntouched(h: Hashing, s: State, tx: Transaction, hash: Hash)
    requires AddTransaction(h, s, tx, hash).Failure?
    ensures AddTransactionLeft(h, s, tx, hash) == s <==>
            RefusedAtOnce(h, s.spentKeys, tx.base.vin)
            || ((forall i :: 0 <= i < |tx.base.vin| ==> tx.base.vin[i].Gen?) && hash in s.txs.txIndices)
  {
    hide Spend, SpendLeft, StoreOutputs, StoreOutputsLeft, AddTxData, AddTxDataLeft, Append, RefusedAtOnce, RemoveBlobs, Fetch;
    var height, keys, vin := |s.chain.blocks|, Spend(h, s.spentKeys, tx.base.vin), tx.base.vin;
    if keys.Failure? {
      SpendLeftSame(h, s.spentKeys, vin);
      AllGenIsSpent(h, s.spentKeys, vin);
    } else {
      NoImages(h, s.spentKeys, vin);
      SpentIsNotRefused(h, s.spentKeys, vin);
      AddTxDataLeftIndexes(s.txs, tx, hash, height);
      if AddTxData(h, s.txs, tx, hash, height).Success? {
        TxDataAdded(h, s.txs, tx, hash, height, s.txs.txOutputs);
      }
    }
  }

  lemma {:induction false} AllGenIsSpent(h: Hashing, keys: set<KeyImage>, vin: seq<Input>)
    requires Spend(h, keys, vin).Failure?
    ensures exists i :: 0 <= i < |vin| && !vin[i].Gen?
    decreases |vin|
  {
    if vin[0].Gen? {
      AllGenIsSpent(h, keys, vin[1..]);
      var i :| 0 <= i < |vin[1..]| && !vin[1..][i].Gen?;
      assert !vin[i + 1].Gen?;
    }
  }

  lemma {:induction false} SpentIsNotRefused(h: Hashing, keys: set<KeyImage>, vin: seq<Input>)
    requires Spend(h, keys, vin).Success?
    ensures !RefusedAtOnce(h, keys, vin)
    decreases |vin|
  {
    if vin != [] {
      var rest := vin[1..];
      SpentIsNotRefused(h, SpendOne(h, keys, vin[0]).value, rest);
      assert forall i :: 0 < i < |vin| ==> vin[i] == rest[i - 1];
    }
  }

  /** A failed add_block leaves the tables as they were if and only if the failing check comes before any write. */
  lemma FailedAddUntouched(h: Hashing, s: State, e: Entry)
    requires AddBlock(h, s, e).Failure?
    ensures AddBlockLeft(h, s, e) == s <==> Untouched(h, s, e)
  {
    hide AddTransaction, AddTransactionLeft, AddTransactions, AddTransactionsLeft, AddBlockData, AddBlockDataLeft, RefusedAtOnce;
    if |e.block.txHashes| == |e.txs| {
      var miner, minerHash := e.block.minerTx, h.txHash(e.block.minerTx);
      var coinbase := AddTransaction(h, s, miner, minerHash);
      if coinbase.Failure? {
        FailedTransactionUntouched(h, s, miner, minerHash);
      } else {
        IndicesStay(h, s, miner, minerHash);
        AllIndicesStay(h, coinbase.value, e.txs, e.block.txHashes, 0);
        AddedSpends(h, s, miner, minerHash);
        SpentIsNotRefused(h, s.spentKeys, miner.base.vin);
      }
    }
  }

  lemma AddedSpends(h: Hashing, s: State, tx: Transaction, hash: Hash)
    requires AddTransaction(h, s, tx, hash).Success?
    ensures Spend(h, s.spentKeys, tx.base.vin).Success?
  {
    hide Spend, StoreOutputs, AddTxData, Append;
  }
}
