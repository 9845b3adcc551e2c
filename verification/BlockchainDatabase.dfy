/** The database object: its tables as fields, updated in place by the methods of blockchain_db.cpp and the LMDB hooks. */
module BlockchainDatabase {
  import opened Outcomes
  import opened KeyedTables
  import opened Ledger
  import opened Reorganization
  import opened FailedCalls
  import opened WriteBatches
  import opened LedgerInvariants
  import opened Acceptance

  method HasPqInput(tx: TxBase) returns (yes: bool)
    ensures yes <==> HasTransparentPqInput(tx.vin)
  {
    for i := 0 to |tx.vin|
      invariant !HasTransparentPqInput(tx.vin[..i])
    {
      if tx.vin[i].ToKeyPq? {
        return true;
      }
      assert tx.vin[..i + 1] == tx.vin[..i] + [tx.vin[i]];
    }
    assert tx.vin[..|tx.vin|] == tx.vin;
    return false;
  }

  method OutputsStoredAsPseudoRct(tx: TxBase) returns (yes: bool)
    ensures yes <==> PseudoRct(tx)
    ensures yes <==> ((exists k :: 0 <= k < |tx.vin| && tx.vin[k].Gen?) && tx.version == 2)
                     || ((exists k :: 0 <= k < |tx.vin| && tx.vin[k].ToKeyPq?) && tx.rctType == 0)
  {
    var coinbase := false;
    for i := 0 to |tx.vin|
      invariant coinbase <==> IsCoinbase(tx.vin[..i])
    {
      if tx.vin[i].Gen? {
        coinbase := true;
      }
      CoinbaseSoFar(tx.vin, i);
    }
    assert tx.vin[..|tx.vin|] == tx.vin;
    var pq := HasPqInput(tx);
    return (coinbase && tx.version == 2) || (pq && tx.rctType == RCT_TYPE_NULL);
  }

  lemma CoinbaseSoFar(vin: seq<Input>, i: nat)
    requires i < |vin|
    ensures IsCoinbase(vin[..i + 1]) <==> IsCoinbase(vin[..i]) || vin[i].Gen?
  {
    assert vin[..i + 1] == vin[..i] + [vin[i]];
    if IsCoinbase(vin[..i]) {
      var k :| 0 <= k < i && vin[..i][k].Gen?;
      assert vin[..i + 1][k].Gen?;
    }
    if vin[i].Gen? {
      assert vin[..i + 1][i].Gen?;
    }
  }

  /** The count agrees with the bucket rule: it is the number of outputs stored under amount 0. */
  method NumOutputsInRctBucket(tx: TxBase) returns (n: nat)
    ensures n == NumRctOuts(tx) == CountIn(tx, 0, |tx.vout|)
  {
    NumRctOutsIsCount(tx);
    var pseudo := OutputsStoredAsPseudoRct(tx);
    if pseudo {
      return |tx.vout|;
    }
    n := 0;
    for i := 0 to |tx.vout|
      invariant n == ZeroAmounts(tx.vout[..i])
    {
      if tx.vout[i].amount == 0 {
        n := n + 1;
      }
      assert tx.vout[..i + 1][..i] == tx.vout[..i];
    }
    assert tx.vout[..|tx.vout|] == tx.vout;
  }

  lemma StartRuns(h: Hashing, calls: seq<Call>, starts: bool)
    ensures var x := Run(h, calls);
            Run(h, calls + [BatchStart(starts)]) == if x.saved.None? && starts then x.(saved := Some(x.tables)) else x
  {
    hide AfterAdd, PopReturns, PopBlockLeft;
    assert (calls + [BatchStart(starts)])[..|calls|] == calls;
  }

  class BlockchainDb {
    const hashing: Hashing

    var spentKeys: set<KeyImage>
    var outputTxs: Table<OutTx>
    var outputAmounts: Buckets
    var txIndices: map<Hash, TxIndex>
    var txsPruned: Table<TxBase>
    var txsPrunable: Table<Blob>
    var txsPrunableHash: Table<Hash>
    var txOutputs: Table<seq<nat>>
    var blocks: Table<Block>
    var blockInfo: Table<BlockInfo>
    var blockHeights: map<Hash, nat>

    /** The tables at the start of the open batch. */
    var saved: Option<State>

    /** The calls of AddBlock, PopBlock and the batch methods so far. */
    ghost var calls: seq<Call>

    ghost predicate Valid()
      reads this
    {
      Session(State(), saved) == Run(hashing, calls)
    }

    constructor (hashing: Hashing)
      ensures this.hashing == hashing && calls == [] && Valid()
    {
      this.hashing, saved, calls := hashing, None, [];
      spentKeys, outputTxs, outputAmounts := {}, [], map[];
      txIndices, txsPruned, txsPrunable, txsPrunableHash, txOutputs := map[], [], [], [], [];
      blocks, blockInfo, blockHeights := [], [], map[];
    }

    function Outs(): Outputs
      reads this
    {
      Outputs(outputTxs, outputAmounts)
    }

    function TxTables(): Txs
      reads this
    {
      Txs(txIndices, txsPruned, txsPrunable, txsPrunableHash, txOutputs)
    }

    function Chain(): ChainTables
      reads this
    {
      ChainTables(blocks, blockInfo, blockHeights)
    }

    function State(): State
      reads this
    {
      Ledger.State(spentKeys, Outs(), TxTables(), Chain())
    }

    // ----- Spent keys -----

    method AddSpentKey(image: KeyImage) returns (r: Outcome<()>)
      modifies this`spentKeys
      ensures r == if image in old(spentKeys) then Failure(KeyImageExists) else Success(())
      ensures spentKeys == old(spentKeys) + {image}
    {
      if image in spentKeys {
        assert spentKeys == spentKeys + {image};
        return Failure(KeyImageExists);
      }
      spentKeys := spentKeys + {image};
      return Success(());
    }

    method RemoveSpentKey(image: KeyImage)
      modifies this`spentKeys
      ensures spentKeys == old(spentKeys) - {image}
    {
      if image in spentKeys {
        spentKeys := spentKeys - {image};
      }
    }

    method SpendInputs(vin: seq<Input>) returns (r: Outcome<()>)
      modifies this`spentKeys
      ensures Spend(hashing, old(spentKeys), vin) == if r.Success? then Success(spentKeys) else Failure(r.error)
      ensures r.Failure? ==> spentKeys == SpendLeft(hashing, old(spentKeys), vin)
    {
      assert vin[0..] == vin;
      for i := 0 to |vin|
        invariant Spend(hashing, old(spentKeys), vin) == Spend(hashing, spentKeys, vin[i..])
        invariant SpendLeft(hashing, old(spentKeys), vin) == SpendLeft(hashing, spentKeys, vin[i..])
      {
        assert vin[i..][1..] == vin[i + 1..] && vin[i..][0] == vin[i];
        match vin[i] {
          case ToKey(image) =>
            var _ :- AddSpentKey(image);
          case ToKeyPq(key) =>
            var _ :- AddSpentKey(hashing.pqKeyImage(key));
          case Gen(_) =>
          case OtherInput =>
            return Failure(RuntimeError);
        }
      }
      return Success(());
    }

    method UnspendInputs(vin: seq<Input>)
      modifies this`spentKeys
      ensures spentKeys == Unspend(hashing, old(spentKeys), vin)
    {
      assert vin[0..] == vin;
      for i := 0 to |vin|
        invariant Unspend(hashing, old(spentKeys), vin) == Unspend(hashing, spentKeys, vin[i..])
      {
        assert vin[i..][1..] == vin[i + 1..] && vin[i..][0] == vin[i];
        match vin[i] {
          case ToKey(image) => RemoveSpentKey(image);
          case ToKeyPq(key) => RemoveSpentKey(hashing.pqKeyImage(key));
          case _ =>
        }
      }
    }

    // ----- Outputs -----

    method AddOutput(hash: Hash, output: Output, local: nat, unlockTime: nat, commitment: Option<Key>) returns (r: Outcome<nat>)
      modifies this`outputTxs, this`outputAmounts
      ensures Ledger.AddOutput(old(Outs()), hash, output.amount, output.target, local, unlockTime, |blocks|, commitment)
              == if r.Success? then Success((Outs(), r.value)) else Failure(r.error)
      ensures r.Failure? ==> Outs() == AddOutputLeft(old(Outs()), hash, output.amount, output.target, local, commitment)
      ensures r.Success? ==>
                var id := old(NumOutputs(outputTxs));
                var data := if output.amount == 0 then commitment else None;
                && outputTxs == old(outputTxs) + [Record(id, OutTx(hash, local))]
                && r.value == |old(Bucket(outputAmounts, output.amount))|
                && Bucket(outputAmounts, output.amount)
                   == old(Bucket(outputAmounts, output.amount)) + [Record(r.value, OutKey(id, output.target.value, unlockTime, |blocks|, data))]
      ensures forall a :: a != output.amount ==> Bucket(outputAmounts, a) == old(Bucket(outputAmounts, a))
    {
      var id, amount := NumOutputs(outputTxs), output.amount;
      if output.target.None? || (amount == 0 && commitment.None?) {
        return Failure(DatabaseError);
      }
      outputTxs :- OrThrow(Append(outputTxs, id, OutTx(hash, local)), DatabaseError);
      var index := if amount in outputAmounts then |outputAmounts[amount]| else 0;
      var record := OutKey(id, output.target.value, unlockTime, |blocks|, if amount == 0 then commitment else None);
      var bucket :- OrThrow(Append(Bucket(outputAmounts, amount), index, record), DatabaseError);
      outputAmounts := outputAmounts[amount := bucket];
      return Success(index);
    }

    method RemoveOutput(amount: nat, index: nat) returns (r: Outcome<()>)
      modifies this`outputTxs, this`outputAmounts
      ensures Ledger.RemoveOutput(old(Outs()), amount, index) == if r.Success? then Success(Outs()) else Failure(r.error)
      ensures r.Failure? ==> Outs() == old(Outs())
      ensures r.Success? ==>
                && Find(old(Bucket(outputAmounts, amount)), index).Some?
                && Bucket(outputAmounts, amount) == Delete(old(Bucket(outputAmounts, amount)), index)
      ensures forall a :: a != amount ==> Bucket(outputAmounts, a) == old(Bucket(outputAmounts, a))
    {
      var bucket := Bucket(outputAmounts, amount);
      var record :- OrThrow(Find(bucket, index), OutputDoesNotExist);
      var _ :- OrThrow(Find(outputTxs, record.outputId), DatabaseError);
      outputTxs := Delete(outputTxs, record.outputId);
      var rest := Delete(bucket, index);
      outputAmounts := if rest == [] then outputAmounts - {amount} else outputAmounts[amount := rest];
      return Success(());
    }

    method StoreOutputs(tx: TxBase, hash: Hash) returns (r: Outcome<seq<nat>>)
      modifies this`outputTxs, this`outputAmounts
      ensures Ledger.StoreOutputs(hashing, old(Outs()), tx, hash, |blocks|, 0, [])
              == if r.Success? then Success((Outs(), r.value)) else Failure(r.error)
      ensures r.Failure? ==> Outs() == StoreOutputsLeft(hashing, old(Outs()), tx, hash, |blocks|, 0)
    {
      hide Ledger.AddOutput, AddOutputLeft, PseudoRct;
      var pseudo := OutputsStoredAsPseudoRct(tx);
      var indices: seq<nat> := [];
      for i := 0 to |tx.vout|
        invariant Ledger.StoreOutputs(hashing, old(Outs()), tx, hash, |blocks|, 0, [])
                  == Ledger.StoreOutputs(hashing, Outs(), tx, hash, |blocks|, i, indices)
        invariant StoreOutputsLeft(hashing, old(Outs()), tx, hash, |blocks|, 0) == StoreOutputsLeft(hashing, Outs(), tx, hash, |blocks|, i)
      {
        var index: nat;
        if pseudo {
          index :- AddOutput(hash, tx.vout[i].(amount := 0), i, tx.unlockTime, Some(hashing.zeroCommit(tx.vout[i].amount)));
        } else if tx.version > 1 {
          if i >= |tx.outPk| {
            return Failure(OutOfBounds);
          }
          index :- AddOutput(hash, tx.vout[i], i, tx.unlockTime, Some(tx.outPk[i]));
        } else {
          index :- AddOutput(hash, tx.vout[i], i, tx.unlockTime, None);
        }
        indices := indices + [index];
      }
      return Success(indices);
    }

    method RemoveTxOutputs(id: nat, tx: TxBase) returns (r: Outcome<()>)
      modifies this`outputTxs, this`outputAmounts
      ensures Find(txOutputs, id).None? ==> r == Failure(DatabaseError) && Outs() == old(Outs())
      ensures Find(txOutputs, id).Some? ==>
                var indices := Find(txOutputs, id).value;
                r.Failure? ==> Outs() == RemoveOutputsLeft(old(Outs()), tx, indices, |tx.vout|)
      ensures Find(txOutputs, id).Some? ==>
                var indices := Find(txOutputs, id).value;
                (if indices == [] && tx.vout != [] then Failure(DatabaseError)
                 else RemoveOutputs(old(Outs()), tx, indices, |tx.vout|))
                == if r.Success? then Success(Outs()) else Failure(r.error)
    {
      hide Ledger.RemoveOutput, PseudoRct, Find;
      var indices :- OrThrow(Find(txOutputs, id), DatabaseError);
      if indices == [] && tx.vout != [] {
        return Failure(DatabaseError);
      }
      var pseudo := OutputsStoredAsPseudoRct(tx);
      var i := |tx.vout|;
      while i > 0
        invariant 0 <= i <= |tx.vout|
        invariant RemoveOutputs(old(Outs()), tx, indices, |tx.vout|) == RemoveOutputs(Outs(), tx, indices, i)
        invariant RemoveOutputsLeft(old(Outs()), tx, indices, |tx.vout|) == RemoveOutputsLeft(Outs(), tx, indices, i)
      {
        i := i - 1;
        if i >= |indices| {
          return Failure(OutOfBounds);
        }
        var _ :- RemoveOutput(if pseudo then 0 else tx.vout[i].amount, indices[i]);
      }
      return Success(());
    }

    // ----- Transactions -----

    method AddTransactionData(tx: Transaction, hash: Hash) returns (r: Outcome<nat>)
      modifies this`txIndices, this`txsPruned, this`txsPrunable, this`txsPrunableHash
      ensures AddTxData(hashing, old(TxTables()), tx, hash, |blocks|)
              == if r.Success? then Success((TxTables(), r.value)) else Failure(r.error)
      ensures r.Failure? ==> TxTables() == AddTxDataLeft(old(TxTables()), tx, hash, |blocks|)
      ensures r.Success? ==>
                && r.value == |old(txsPruned)| && hash !in old(txIndices)
                && txIndices == old(txIndices)[hash := TxIndex(r.value, tx.base.unlockTime, |blocks|)]
                && txsPruned == old(txsPruned) + [Record(r.value, tx.base)]
                && txsPrunable == old(txsPrunable) + [Record(r.value, tx.prunable)]
                && txsPrunableHash == old(txsPrunableHash) + if tx.base.version > 1 then [Record(r.value, hashing.prunableHash(tx))] else []
    {
      var id := |txsPruned|;
      if hash in txIndices {
        return Failure(TxExists);
      }
      txIndices := txIndices[hash := TxIndex(id, tx.base.unlockTime, |blocks|)];
      txsPruned :- OrThrow(Append(txsPruned, id, tx.base), DatabaseError);
      txsPrunable :- OrThrow(Append(txsPrunable, id, tx.prunable), DatabaseError);
      if tx.base.version > 1 {
        txsPrunableHash :- OrThrow(Append(txsPrunableHash, id, hashing.prunableHash(tx)), DatabaseError);
      }
      return Success(id);
    }

    method AddTransaction(tx: Transaction, hash: Hash) returns (r: Outcome<()>)
      modifies this`spentKeys, this`outputTxs, this`outputAmounts
      modifies this`txIndices, this`txsPruned, this`txsPrunable, this`txsPrunableHash, this`txOutputs
      ensures Ledger.AddTransaction(hashing, old(State()), tx, hash) == if r.Success? then Success(State()) else Failure(r.error)
      ensures r.Failure? ==> State() == AddTransactionLeft(hashing, old(State()), tx, hash)
    {
      hide Spend, AddTxData, Ledger.StoreOutputs, Append, SpendLeft, AddTxDataLeft, StoreOutputsLeft;
      var _ :- SpendInputs(tx.base.vin);
      var id :- AddTransactionData(tx, hash);
      var indices :- StoreOutputs(tx.base, hash);
      txOutputs :- OrThrow(Append(txOutputs, id, indices), DatabaseError);
      return Success(());
    }

    method RemoveBlobs(id: nat, tx: TxBase) returns (r: Outcome<()>)
      modifies this`txsPruned, this`txsPrunable, this`txsPrunableHash
      ensures Ledger.RemoveBlobs(old(TxTables()), id, tx) == if r.Success? then Success(TxTables()) else Failure(r.error)
      ensures r.Failure? ==> TxTables() == RemoveBlobsLeft(old(TxTables()), id)
    {
      hide Find, Delete;
      var _ :- OrThrow(Find(txsPruned, id), DatabaseError);
      txsPruned := Delete(txsPruned, id);
      if Find(txsPrunable, id).Some? {
        txsPrunable := Delete(txsPrunable, id);
      }
      if tx.version > 1 {
        var _ :- OrThrow(Find(txsPrunableHash, id), DatabaseError);
        txsPrunableHash := Delete(txsPrunableHash, id);
      }
      return Success(());
    }

    method RemoveTransactionData(hash: Hash, tx: TxBase) returns (r: Outcome<()>)
      modifies this`outputTxs, this`outputAmounts
      modifies this`txIndices, this`txsPruned, this`txsPrunable, this`txsPrunableHash, this`txOutputs
      ensures RemoveTxData(old(State()), hash, tx) == if r.Success? then Success(State()) else Failure(r.error)
      ensures r.Failure? ==> State() == RemoveTxDataLeft(old(State()), hash, tx)
    {
      hide Find, Delete, RemoveOutputs, RemoveOutputsLeft, Ledger.RemoveBlobs, RemoveBlobsLeft;
      if hash !in txIndices {
        return Failure(TxDoesNotExist);
      }
      var id := txIndices[hash].txId;
      var _ :- RemoveBlobs(id, tx);
      var _ :- RemoveTxOutputs(id, tx);
      if Find(txOutputs, id).Some? {
        txOutputs := Delete(txOutputs, id);
      }
      txIndices := txIndices - {hash};
      return Success(());
    }

    method RemoveTransaction(hash: Hash) returns (r: Outcome<()>)
      modifies this`spentKeys, this`outputTxs, this`outputAmounts
      modifies this`txIndices, this`txsPruned, this`txsPrunable, this`txsPrunableHash, this`txOutputs
      ensures Ledger.RemoveTransaction(hashing, old(State()), hash) == if r.Success? then Success(State()) else Failure(r.error)
      ensures r.Failure? ==> State() == RemoveTransactionLeft(hashing, old(State()), hash)
    {
      hide RemoveTxData, RemoveTxDataLeft, Unspend, FindBase;
      var tx :- OrThrow(FindBase(TxTables(), hash), TxDoesNotExist);
      UnspendInputs(tx.vin);
      r := RemoveTransactionData(hash, tx);
    }

    // ----- Blocks -----

    /** The hook that stores the block itself. */
    method AddBlockData(e: Entry, numRctOuts: nat) returns (r: Outcome<()>)
      modifies this`blocks, this`blockInfo, this`blockHeights
      ensures Ledger.AddBlockData(hashing, old(Chain()), e, numRctOuts) == if r.Success? then Success(Chain()) else Failure(r.error)
      ensures r.Failure? ==> Chain() == AddBlockDataLeft(hashing, old(Chain()), e)
      ensures r.Success? ==>
                var height, hash := |old(blocks)|, hashing.blockHash(e.block);
                && hash !in old(blockHeights) && blockHeights == old(blockHeights)[hash := height]
                && blocks == old(blocks) + [Record(height, e.block)]
                && |blockInfo| == |old(blockInfo)| + 1 && blockInfo[..|old(blockInfo)|] == old(blockInfo)
    {
      hide Find;
      var height, hash := |blocks|, hashing.blockHash(e.block);
      if hash in blockHeights {
        return Failure(BlockExists);
      }
      if height > 0 {
        if e.block.prevId !in blockHeights {
          return Failure(DatabaseError);
        }
        if blockHeights[e.block.prevId] != height - 1 {
          return Failure(BlockParentDoesNotExist);
        }
      }
      blocks :- OrThrow(Append(blocks, height, e.block), DatabaseError);
      var cumulativeRct := numRctOuts;
      if e.block.majorVersion >= 4 {
        if height == 0 {
          return Failure(BlockDoesNotExist);
        }
        var previous :- OrThrow(Find(blockInfo, height - 1), BlockDoesNotExist);
        cumulativeRct := cumulativeRct + previous.cumulativeRct;
      }
      var info := BlockInfo(e.block.timestamp, e.coins, e.weight, e.difficulty, hash, cumulativeRct, e.longTermWeight);
      blockInfo :- OrThrow(Append(blockInfo, height, info), DatabaseError);
      blockHeights := blockHeights[hash := height];
      return Success(());
    }

    method AddTransactions(e: Entry) returns (r: Outcome<nat>)
      requires |e.txs| == |e.block.txHashes|
      modifies this`spentKeys, this`outputTxs, this`outputAmounts
      modifies this`txIndices, this`txsPruned, this`txsPrunable, this`txsPrunableHash, this`txOutputs
      ensures Ledger.AddTransactions(hashing, old(State()), e.txs, e.block.txHashes, 0)
              == if r.Success? then Success(State()) else Failure(r.error)
      ensures r.Success? ==> r.value == TotalRctOuts(e.txs)
      ensures r.Failure? ==> State() == AddTransactionsLeft(hashing, old(State()), e.txs, e.block.txHashes, 0)
    {
      hide Ledger.AddTransaction, AddTransactionLeft, NumRctOuts;
      var numRctOuts := 0;
      for i := 0 to |e.txs|
        invariant Ledger.AddTransactions(hashing, old(State()), e.txs, e.block.txHashes, 0)
                  == Ledger.AddTransactions(hashing, State(), e.txs, e.block.txHashes, i)
        invariant AddTransactionsLeft(hashing, old(State()), e.txs, e.block.txHashes, 0)
                  == AddTransactionsLeft(hashing, State(), e.txs, e.block.txHashes, i)
        invariant numRctOuts == TotalRctOuts(e.txs[..i])
      {
        var _ :- AddTransaction(e.txs[i], e.block.txHashes[i]);
        var n := NumOutputsInRctBucket(e.txs[i].base);
        numRctOuts := numRctOuts + n;
        assert e.txs[..i + 1][..i] == e.txs[..i];
      }
      assert e.txs[..|e.txs|] == e.txs;
      return Success(numRctOuts);
    }

    /** The miner transaction and then the others; their RingCT outputs are counted. */
    method AddAllTransactions(e: Entry) returns (r: Outcome<nat>)
      requires |e.txs| == |e.block.txHashes|
      modifies this`spentKeys, this`outputTxs, this`outputAmounts
      modifies this`txIndices, this`txsPruned, this`txsPrunable, this`txsPrunableHash, this`txOutputs
      ensures var minerHash := hashing.txHash(e.block.minerTx);
              var miner := Ledger.AddTransaction(hashing, old(State()), e.block.minerTx, minerHash);
              if miner.Failure? then
                && r == Failure(miner.error)
                && State() == AddTransactionLeft(hashing, old(State()), e.block.minerTx, minerHash)
              else
                && Ledger.AddTransactions(hashing, miner.value, e.txs, e.block.txHashes, 0)
                   == (if r.Success? then Success(State()) else Failure(r.error))
                && (r.Failure? ==> State() == AddTransactionsLeft(hashing, miner.value, e.txs, e.block.txHashes, 0))
                && (r.Success? ==> r.value == BlockRctOuts(e))
    {
      hide Ledger.AddTransaction, Ledger.AddTransactions, NumRctOuts, TotalRctOuts, AddTransactionLeft, AddTransactionsLeft;
      var miner := e.block.minerTx;
      var _ :- AddTransaction(miner, hashing.txHash(miner));
      var fromMiner := NumOutputsInRctBucket(miner.base);
      var fromTxs :- AddTransactions(e);
      return Success(fromMiner + fromTxs);
    }

    /** add_block of the base class. */
    method AddBlockToTables(e: Entry) returns (r: Outcome<nat>)
      modifies this
      ensures calls == old(calls) && saved == old(saved)
      ensures Ledger.AddBlock(hashing, old(State()), e) == if r.Success? then Success(State()) else Failure(r.error)
      ensures r.Success? ==> r.value == old(|blocks|)
      ensures r.Failure? ==> State() == AddBlockLeft(hashing, old(State()), e)
    {
      hide Ledger.AddTransaction, Ledger.AddTransactions, Ledger.AddBlockData, BlockRctOuts;
      hide AddTransactionLeft, AddTransactionsLeft, AddBlockDataLeft;
      if |e.block.txHashes| != |e.txs| {
        return Failure(RuntimeError);
      }
      var height := |blocks|;
      var numRctOuts :- AddAllTransactions(e);
      var _ :- AddBlockData(e, numRctOuts);
      return Success(height);
    }

    method RemoveBlock() returns (r: Outcome<Block>)
      modifies this`blocks, this`blockInfo, this`blockHeights
      ensures Ledger.RemoveBlock(old(Chain())) == if r.Success? then Success((Chain(), r.value)) else Failure(r.error)
      ensures r.Failure? ==> Chain() == old(Chain())
      ensures r.Success? ==>
                var top := |old(blocks)| - 1;
                && top >= 0 && Find(old(blocks), top) == Some(r.value) && blocks == Delete(old(blocks), top)
                && Find(old(blockInfo), top).Some? && blockInfo == Delete(old(blockInfo), top)
                && blockHeights == old(blockHeights) - {Find(old(blockInfo), top).value.hash}
    {
      hide Find, Delete;
      var height := |blocks|;
      if height == 0 {
        return Failure(BlockDoesNotExist);
      }
      var block :- OrThrow(Find(blocks, height - 1), BlockDoesNotExist);
      var info :- OrThrow(Find(blockInfo, height - 1), BlockDoesNotExist);
      if info.hash !in blockHeights {
        return Failure(DatabaseError);
      }
      blockHeights := blockHeights - {info.hash};
      blocks := Delete(blocks, height - 1);
      blockInfo := Delete(blockInfo, height - 1);
      return Success(block);
    }

    method RemoveTransactions(hashes: seq<Hash>) returns (r: Outcome<seq<Fetched>>)
      modifies this`spentKeys, this`outputTxs, this`outputAmounts
      modifies this`txIndices, this`txsPruned, this`txsPrunable, this`txsPrunableHash, this`txOutputs
      ensures Ledger.RemoveTransactions(hashing, old(State()), hashes, |hashes|, [])
              == if r.Success? then Success((State(), r.value)) else Failure(r.error)
      ensures r.Failure? ==> State() == RemoveTransactionsLeft(hashing, old(State()), hashes, |hashes|)
    {
      hide Ledger.RemoveTransaction, RemoveTransactionLeft, Fetch;
      var popped: seq<Fetched> := [];
      var i := |hashes|;
      while i > 0
        invariant 0 <= i <= |hashes|
        invariant Ledger.RemoveTransactions(hashing, old(State()), hashes, |hashes|, [])
                  == Ledger.RemoveTransactions(hashing, State(), hashes, i, popped)
        invariant RemoveTransactionsLeft(hashing, old(State()), hashes, |hashes|) == RemoveTransactionsLeft(hashing, State(), hashes, i)
      {
        i := i - 1;
        var tx :- OrThrow(Fetch(TxTables(), hashes[i]), DatabaseError);
        popped := popped + [tx];
        var _ :- RemoveTransaction(hashes[i]);
      }
      return Success(popped);
    }

    /** pop_block of the base class. */
    method PopBlockFromTables() returns (r: Outcome<(Block, seq<Fetched>)>)
      modifies this
      ensures calls == old(calls) && saved == old(saved)
      ensures Ledger.PopBlock(hashing, old(State())) == if r.Success? then Success(Popped(State(), r.value.0, r.value.1)) else Failure(r.error)
      ensures r.Failure? ==> State() == PopBlockLeft(hashing, old(State()))
    {
      hide Ledger.RemoveTransaction, Ledger.RemoveTransactions, Ledger.RemoveBlock, RemoveTransactionLeft, RemoveTransactionsLeft;
      var block :- RemoveBlock();
      var txs :- RemoveTransactions(block.txHashes);
      var _ :- RemoveTransaction(hashing.txHash(block.minerTx));
      return Success((block, txs));
    }

    // ----- Write transactions -----

    method Restore(s: State)
      modifies this
      ensures State() == s && calls == old(calls) && saved == old(saved)
    {
      spentKeys := s.spentKeys;
      RestoreOutputs(s.outs);
      RestoreTransactions(s.txs);
      blocks, blockInfo, blockHeights := s.chain.blocks, s.chain.blockInfo, s.chain.blockHeights;
    }

    method RestoreOutputs(o: Outputs)
      modifies this`outputTxs, this`outputAmounts
      ensures Outs() == o
    {
      outputTxs, outputAmounts := o.outputTxs, o.outputAmounts;
    }

    method RestoreTransactions(t: Txs)
      modifies this`txIndices, this`txsPruned, this`txsPrunable, this`txsPrunableHash, this`txOutputs
      ensures TxTables() == t
    {
      txIndices, txsPruned, txsPrunable := t.txIndices, t.txsPruned, t.txsPrunable;
      txsPrunableHash, txOutputs := t.txsPrunableHash, t.txOutputs;
    }

    /**
     * add_block, in the open batch or under a write guard of the caller.  When it throws, what was
     * written stays; how that ends depends on the batch.
     */
    method AddBlock(e: Entry) returns (r: Outcome<nat>)
      requires Valid()
      modifies this
      ensures Valid() && calls == old(calls) + [Add(e)] && saved == old(saved)
      ensures r.Success? ==> Ledger.AddBlock(hashing, old(State()), e) == Success(State()) && r.value == old(|blocks|) + 1
      ensures r.Failure? ==> State() == AddBlockLeft(hashing, old(State()), e)
      ensures r.Failure? ==> (State() == old(State()) <==> Untouched(hashing, old(State()), e))
      ensures old(Clean(hashing, calls)) ==>
                var entries := old(Surviving(hashing, calls));
                && Matched(entries)
                && (r.Success? <==>
                    && |e.txs| == |e.block.txHashes|
                    && Acceptable(hashing, StoredOf(hashing, entries) + StoredOfBlock(hashing, e, |entries|))
                    && Continues(hashing, entries, e))
      ensures Surviving(hashing, calls) == old(Surviving(hashing, calls)) + if r.Success? then [e] else []
    {
      hide Ledger.AddBlock, AddBlockLeft, Untouched, Acceptable, Continues, StoredOf, StoredOfBlock;
      if Clean(hashing, calls) {
        AddSucceeds(hashing, calls, e);
      }
      if Ledger.AddBlock(hashing, State(), e).Failure? {
        FailedAddUntouched(hashing, State(), e);
      }
      r := AddBlockToTables(e);
      calls := calls + [Add(e)];
      assert calls[..|calls| - 1] == old(calls);
      if r.Success? {
        r := Success(r.value + 1);
      }
    }

    /** pop_block, in the open batch or else in a transaction of its own, which is aborted when the call or its commit fails. */
    method PopBlock(commits: bool) returns (r: Outcome<(Block, seq<Fetched>)>)
      requires Valid()
      modifies this
      ensures Valid() && calls == old(calls) + [Pop(commits)] && saved == old(saved)
      ensures r.Success? <==> old(PopReturns(hashing, Session(State(), saved), commits))
      ensures r.Failure? ==> State() == if saved.Some? then PopBlockLeft(hashing, old(State())) else old(State())
      ensures old(Clean(hashing, calls)) ==>
                var entries := old(Surviving(hashing, calls));
                if entries == [] then r == Failure(BlockDoesNotExist) && State() == old(State())
                else if saved.None? && !commits then r == Failure(DatabaseError) && State() == old(State())
                else
                  var last := entries[|entries| - 1];
                  && r == Success((last.block, AllWhole(Reversed(last.txs))))
                  && Surviving(hashing, calls) == entries[..|entries| - 1]
                  && Replay(hashing, entries[..|entries| - 1]) == Success(State())
    {
      hide Ledger.AddBlock, Ledger.PopBlock, PopBlockLeft, Replay;
      var before := State();
      if Clean(hashing, calls) {
        RunIsReplay(hashing, calls);
        PopReplayed(hashing, Surviving(hashing, calls));
        if Surviving(hashing, calls) == [] {
          NothingToPop(hashing, before);
        }
      }
      r := PopBlockFromTables();
      if saved.None? {
        if r.Success? && !commits {
          r := Failure(DatabaseError);
        }
        if r.Failure? {
          Restore(before);
        }
      }
      calls := calls + [Pop(commits)];
      assert calls[..|calls| - 1] == old(calls);
    }

    /** batch_start: false when a batch is open; starting one may throw. */
    method StartBatch(starts: bool) returns (r: Outcome<bool>)
      requires Valid()
      modifies this
      ensures Valid() && calls == old(calls) + [BatchStart(starts)] && State() == old(State())
      ensures r == if old(saved.Some?) then Success(false) else if starts then Success(true) else Failure(DatabaseError)
      ensures saved == if r == Success(true) then Some(State()) else old(saved)
    {
      hide Run, Next;
      StartRuns(hashing, calls, starts);
      if saved.Some? {
        r := Success(false);
      } else if starts {
        saved, r := Some(State()), Success(true);
      } else {
        r := Failure(DatabaseError);
      }
      calls := calls + [BatchStart(starts)];
    }

    /** batch_stop: throws without a batch; when the commit fails, the batch is dropped. */
    method StopBatch(commits: bool) returns (r: Outcome<()>)
      requires Valid()
      modifies this
      ensures Valid() && calls == old(calls) + [BatchStop(commits)] && saved == None
      ensures r.Success? <==> old(saved.Some?) && commits
      ensures State() == if old(saved.None?) || commits then old(State()) else old(saved.value)
    {
      hide AfterAdd, PopReturns, PopBlockLeft;
      if saved.None? {
        r := Failure(DatabaseError);
      } else if commits {
        saved, r := None, Success(());
      } else {
        Restore(saved.value);
        saved, r := None, Failure(DatabaseError);
      }
      calls := calls + [BatchStop(commits)];
      assert calls[..|calls| - 1] == old(calls);
    }

    /** batch_abort: throws without a batch. */
    method AbortBatch() returns (r: Outcome<()>)
      requires Valid()
      modifies this
      ensures Valid() && calls == old(calls) + [BatchAbort] && saved == None
      ensures r.Success? <==> old(saved.Some?)
      ensures State() == if old(saved.None?) then old(State()) else old(saved.value)
    {
      hide AfterAdd, PopReturns, PopBlockLeft;
      if saved.None? {
        r := Failure(DatabaseError);
      } else {
        Restore(saved.value);
        saved, r := None, Success(());
      }
      calls := calls + [BatchAbort];
      assert calls[..|calls| - 1] == old(calls);
    }
  }
}
