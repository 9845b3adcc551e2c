/**
 * The blockchain database as a value: its tables, and what adding and removing transactions and
 * blocks does to them (blockchain_db.cpp over the LMDB hooks).
 */
module Ledger {
  import opened Outcomes
  import opened KeyedTables

  // Hashes, keys, key images and serialized blobs are only ever compared and stored.
  type Hash = nat
  type Key = nat
  type KeyImage = nat
  type Blob = nat

  /** The cryptographic functions, of which nothing is assumed. */
  datatype Hashing = Hashing(
    txHash: Transaction -> Hash,
    prunableHash: Transaction -> Hash,
    blockHash: Block -> Hash,
    zeroCommit: nat -> Key,
    pqKeyImage: Key -> KeyImage)

  datatype Input =
    | Gen(height: nat)
    | ToKey(keyImage: KeyImage)
    | ToKeyPq(realOutputKey: Key)
    | OtherInput

  /** The target is None when it carries no public key. */
  datatype Output = Output(amount: nat, target: Option<Key>)

  const RCT_TYPE_NULL: nat := 0

  /** The part of a transaction that pruning keeps. */
  datatype TxBase = TxBase(version: nat, unlockTime: nat, vin: seq<Input>, vout: seq<Output>, rctType: nat, outPk: seq<Key>)
  datatype Transaction = Transaction(base: TxBase, prunable: Blob)

  /** A transaction as read back from the tables. */
  datatype Fetched = Whole(tx: Transaction) | Pruned(base: TxBase)

  datatype Block = Block(majorVersion: nat, timestamp: nat, prevId: Hash, minerTx: Transaction, txHashes: seq<Hash>)

  /** The arguments of add_block. */
  datatype Entry = Entry(block: Block, weight: nat, longTermWeight: nat, difficulty: nat, coins: nat, txs: seq<Transaction>)

  // ----- The tables -----

  datatype OutTx = OutTx(txHash: Hash, localIndex: nat)
  datatype OutKey = OutKey(outputId: nat, pubkey: Key, unlockTime: nat, height: nat, commitment: Option<Key>)
  datatype TxIndex = TxIndex(txId: nat, unlockTime: nat, blockId: nat)
  datatype BlockInfo = BlockInfo(timestamp: nat, coins: nat, weight: nat, difficulty: nat, hash: Hash, cumulativeRct: nat, longTermWeight: nat)

  /** Outputs by amount; an amount without outputs has no entry. */
  type Buckets = m: map<nat, Table<OutKey>> | forall a :: a in m ==> m[a] != []

  datatype Outputs = Outputs(outputTxs: Table<OutTx>, outputAmounts: Buckets)
  datatype Txs = Txs(
    txIndices: map<Hash, TxIndex>,
    txsPruned: Table<TxBase>,
    txsPrunable: Table<Blob>,
    txsPrunableHash: Table<Hash>,
    txOutputs: Table<seq<nat>>)
  datatype ChainTables = ChainTables(blocks: Table<Block>, blockInfo: Table<BlockInfo>, blockHeights: map<Hash, nat>)
  datatype State = State(spentKeys: set<KeyImage>, outs: Outputs, txs: Txs, chain: ChainTables)

  const EMPTY := State({}, Outputs([], map[]), Txs(map[], [], [], [], []), ChainTables([], [], map[]))

  function Bucket(m: Buckets, amount: nat): Table<OutKey> {
    if amount in m then m[amount] else []
  }

  /** The next output id is one above the last. */
  function NumOutputs(t: Table<OutTx>): nat {
    if t == [] then 0 else 1 + t[|t| - 1].key
  }

  function OrThrow<T>(o: Option<T>, error: Error): Outcome<T> {
    if o.Some? then Success(o.value) else Failure(error)
  }

  // ----- The bucket rule -----

  predicate IsCoinbase(vin: seq<Input>) {
    exists i :: 0 <= i < |vin| && vin[i].Gen?
  }

  predicate HasTransparentPqInput(vin: seq<Input>) {
    exists i :: 0 <= i < |vin| && vin[i].ToKeyPq?
  }

  /** A version-2 coinbase or a transparent post-quantum spend. */
  predicate PseudoRct(tx: TxBase) {
    || (IsCoinbase(tx.vin) && tx.version == 2)
    || (HasTransparentPqInput(tx.vin) && tx.rctType == RCT_TYPE_NULL)
  }

  /** The amount an output is stored under. */
  function BucketOf(tx: TxBase, i: nat): nat
    requires i < |tx.vout|
  {
    if PseudoRct(tx) then 0 else tx.vout[i].amount
  }

  // ----- Spent keys -----

  function ImageOf(h: Hashing, input: Input): Option<KeyImage> {
    match input
    case ToKey(image) => Some(image)
    case ToKeyPq(key) => Some(h.pqKeyImage(key))
    case _ => None
  }

  function SpendOne(h: Hashing, keys: set<KeyImage>, input: Input): Outcome<set<KeyImage>> {
    if input.OtherInput? then Failure(RuntimeError)
    else
      match ImageOf(h, input)
      case None => Success(keys)
      case Some(image) => if image in keys then Failure(KeyImageExists) else Success(keys + {image})
  }

  function Spend(h: Hashing, keys: set<KeyImage>, vin: seq<Input>): Outcome<set<KeyImage>>
    decreases |vin|
  {
    if vin == [] then Success(keys)
    else
      var rest :- SpendOne(h, keys, vin[0]);
      Spend(h, rest, vin[1..])
  }

  function Unspend(h: Hashing, keys: set<KeyImage>, vin: seq<Input>): set<KeyImage>
    decreases |vin|
  {
    if vin == [] then keys
    else
      var image := ImageOf(h, vin[0]);
      Unspend(h, if image.Some? then keys - {image.value} else keys, vin[1..])
  }

  // ----- Outputs -----

  /** add_output: the new tables and the output's index among those of the same amount. */
  function AddOutput(o: Outputs, hash: Hash, amount: nat, target: Option<Key>, local: nat,
                     unlockTime: nat, height: nat, commitment: Option<Key>)
    : Outcome<(Outputs, nat)>
  {
    if target.None? || (amount == 0 && commitment.None?) then Failure(DatabaseError)
    else
      var id := NumOutputs(o.outputTxs);
      var outputTxs :- OrThrow(Append(o.outputTxs, id, OutTx(hash, local)), DatabaseError);
      var index := |Bucket(o.outputAmounts, amount)|;
      var record := OutKey(id, target.value, unlockTime, height, if amount == 0 then commitment else None);
      var bucket :- OrThrow(Append(Bucket(o.outputAmounts, amount), index, record), DatabaseError);
      Success((Outputs(outputTxs, o.outputAmounts[amount := bucket]), index))
  }

  /** remove_output. */
  function RemoveOutput(o: Outputs, amount: nat, index: nat): Outcome<Outputs> {
    var bucket := Bucket(o.outputAmounts, amount);
    var record :- OrThrow(Find(bucket, index), OutputDoesNotExist);
    var _ :- OrThrow(Find(o.outputTxs, record.outputId), DatabaseError);
    var rest := Delete(bucket, index);
    Success(Outputs(Delete(o.outputTxs, record.outputId),
                    if rest == [] then o.outputAmounts - {amount} else o.outputAmounts[amount := rest]))
  }

  /** One output of a transaction, stored by the bucket rule. */
  function StoreOutput(h: Hashing, o: Outputs, tx: TxBase, hash: Hash, height: nat, i: nat): Outcome<(Outputs, nat)>
    requires i < |tx.vout|
  {
    if PseudoRct(tx) then
      AddOutput(o, hash, 0, tx.vout[i].target, i, tx.unlockTime, height, Some(h.zeroCommit(tx.vout[i].amount)))
    else if tx.version > 1 then
      if i >= |tx.outPk| then Failure(OutOfBounds)
      else AddOutput(o, hash, tx.vout[i].amount, tx.vout[i].target, i, tx.unlockTime, height, Some(tx.outPk[i]))
    else
      AddOutput(o, hash, tx.vout[i].amount, tx.vout[i].target, i, tx.unlockTime, height, None)
  }

  /** The outputs from i on, after those with the given indices. */
  function StoreOutputs(h: Hashing, o: Outputs, tx: TxBase, hash: Hash, height: nat, i: nat, indices: seq<nat>): Outcome<(Outputs, seq<nat>)>
    requires i <= |tx.vout|
    decreases |tx.vout| - i
  {
    if i == |tx.vout| then Success((o, indices))
    else
      var next :- StoreOutput(h, o, tx, hash, height, i);
      StoreOutputs(h, next.0, tx, hash, height, i + 1, indices + [next.1])
  }

  /** remove_tx_outputs, for the first n outputs, last first. */
  function RemoveOutputs(o: Outputs, tx: TxBase, indices: seq<nat>, n: nat): Outcome<Outputs>
    requires n <= |tx.vout|
    decreases n
  {
    if n == 0 then Success(o)
    else if n - 1 >= |indices| then Failure(OutOfBounds)
    else
      var rest :- RemoveOutput(o, BucketOf(tx, n - 1), indices[n - 1]);
      RemoveOutputs(rest, tx, indices, n - 1)
  }

  // ----- Transactions -----

  /** add_transaction_data: the new tables and the transaction's id. */
  function AddTxData(h: Hashing, t: Txs, tx: Transaction, hash: Hash, height: nat): Outcome<(Txs, nat)> {
    var id := |t.txsPruned|;
    if hash in t.txIndices then Failure(TxExists)
    else
      var pruned :- OrThrow(Append(t.txsPruned, id, tx.base), DatabaseError);
      var prunable :- OrThrow(Append(t.txsPrunable, id, tx.prunable), DatabaseError);
      var prunableHash :-
        if tx.base.version > 1 then OrThrow(Append(t.txsPrunableHash, id, h.prunableHash(tx)), DatabaseError)
        else Success(t.txsPrunableHash);
      Success((Txs(t.txIndices[hash := TxIndex(id, tx.base.unlockTime, height)], pruned, prunable, prunableHash, t.txOutputs), id))
  }

  /** add_transaction. */
  function AddTransaction(h: Hashing, s: State, tx: Transaction, hash: Hash): Outcome<State> {
    var height := |s.chain.blocks|;
    var keys :- Spend(h, s.spentKeys, tx.base.vin);
    var data :- AddTxData(h, s.txs, tx, hash, height);
    var outs :- StoreOutputs(h, s.outs, tx.base, hash, height, 0, []);
    var txOutputs :- OrThrow(Append(data.0.txOutputs, data.1, outs.1), DatabaseError);
    Success(State(keys, outs.0, data.0.(txOutputs := txOutputs), s.chain))
  }

  function FindBase(t: Txs, hash: Hash): Option<TxBase> {
    if hash in t.txIndices then Find(t.txsPruned, t.txIndices[hash].txId) else None
  }

  /** get_tx, or else get_pruned_tx. */
  function Fetch(t: Txs, hash: Hash): Option<Fetched> {
    var base := FindBase(t, hash);
    if base.None? then None
    else
      var prunable := Find(t.txsPrunable, t.txIndices[hash].txId);
      Some(if prunable.Some? then Whole(Transaction(base.value, prunable.value)) else Pruned(base.value))
  }

  /** remove_transaction_data up to its call of remove_tx_outputs. */
  function RemoveBlobs(t: Txs, id: nat, tx: TxBase): Outcome<Txs> {
    var _ :- OrThrow(Find(t.txsPruned, id), DatabaseError);
    var pruned := Delete(t.txsPruned, id);
    var prunable := if Find(t.txsPrunable, id).Some? then Delete(t.txsPrunable, id) else t.txsPrunable;
    var prunableHash :-
      if tx.version > 1 then
        var _ :- OrThrow(Find(t.txsPrunableHash, id), DatabaseError);
        Success(Delete(t.txsPrunableHash, id))
      else Success(t.txsPrunableHash);
    Success(Txs(t.txIndices, pruned, prunable, prunableHash, t.txOutputs))
  }

  /** remove_transaction_data. */
  function RemoveTxData(s: State, hash: Hash, tx: TxBase): Outcome<State> {
    if hash !in s.txs.txIndices then Failure(TxDoesNotExist)
    else
      var id := s.txs.txIndices[hash].txId;
      var blobs :- RemoveBlobs(s.txs, id, tx);
      var indices :- OrThrow(Find(blobs.txOutputs, id), DatabaseError);
      if indices == [] && tx.vout != [] then Failure(DatabaseError)
      else
        var outs :- RemoveOutputs(s.outs, tx, indices, |tx.vout|);
        Success(State(s.spentKeys, outs, blobs.(txOutputs := Delete(blobs.txOutputs, id), txIndices := blobs.txIndices - {hash}), s.chain))
  }

  /** remove_transaction. */
  function RemoveTransaction(h: Hashing, s: State, hash: Hash): Outcome<State> {
    var tx :- OrThrow(FindBase(s.txs, hash), TxDoesNotExist);
    RemoveTxData(s.(spentKeys := Unspend(h, s.spentKeys, tx.vin)), hash, tx)
  }

  // ----- Blocks -----

  /** num_outputs_in_rct_bucket. */
  function ZeroAmounts(vout: seq<Output>): nat {
    if vout == [] then 0 else ZeroAmounts(vout[..|vout| - 1]) + if vout[|vout| - 1].amount == 0 then 1 else 0
  }

  function NumRctOuts(tx: TxBase): nat {
    if PseudoRct(tx) then |tx.vout| else ZeroAmounts(tx.vout)
  }

  function TotalRctOuts(txs: seq<Transaction>): nat {
    if txs == [] then 0 else TotalRctOuts(txs[..|txs| - 1]) + NumRctOuts(txs[|txs| - 1].base)
  }

  /** The RingCT outputs a block brings. */
  function BlockRctOuts(e: Entry): nat {
    NumRctOuts(e.block.minerTx.base) + TotalRctOuts(e.txs)
  }

  /** The block's transactions from i on, each under the hash the block lists. */
  function AddTransactions(h: Hashing, s: State, txs: seq<Transaction>, hashes: seq<Hash>, i: nat): Outcome<State>
    requires i <= |txs| == |hashes|
    decreases |txs| - i
  {
    if i == |txs| then Success(s)
    else
      var next :- AddTransaction(h, s, txs[i], hashes[i]);
      AddTransactions(h, next, txs, hashes, i + 1)
  }

  /** The hook add_block. */
  function AddBlockData(h: Hashing, b: ChainTables, e: Entry, numRctOuts: nat): Outcome<ChainTables> {
    var height := |b.blocks|;
    var hash := h.blockHash(e.block);
    if hash in b.blockHeights then Failure(BlockExists)
    else if height > 0 && e.block.prevId !in b.blockHeights then Failure(DatabaseError)
    else if height > 0 && b.blockHeights[e.block.prevId] != height - 1 then Failure(BlockParentDoesNotExist)
    else
      var blocks :- OrThrow(Append(b.blocks, height, e.block), DatabaseError);
      var before :-
        if e.block.majorVersion < 4 then Success(0)
        else if height == 0 then Failure(BlockDoesNotExist)
        else
          var previous :- OrThrow(Find(b.blockInfo, height - 1), BlockDoesNotExist);
          Success(previous.cumulativeRct);
      var info := BlockInfo(e.block.timestamp, e.coins, e.weight, e.difficulty, hash, numRctOuts + before, e.longTermWeight);
      var blockInfo :- OrThrow(Append(b.blockInfo, height, info), DatabaseError);
      Success(ChainTables(blocks, blockInfo, b.blockHeights[hash := height]))
  }

  /** add_block. */
  function AddBlock(h: Hashing, s: State, e: Entry): Outcome<State> {
    if |e.block.txHashes| != |e.txs| then Failure(RuntimeError)
    else
      var coinbase :- AddTransaction(h, s, e.block.minerTx, h.txHash(e.block.minerTx));
      var all :- AddTransactions(h, coinbase, e.txs, e.block.txHashes, 0);
      var chain :- AddBlockData(h, all.chain, e, BlockRctOuts(e));
      Success(all.(chain := chain))
  }

  /** The hook remove_block: the top block and the tables without it. */
  function RemoveBlock(b: ChainTables): Outcome<(ChainTables, Block)> {
    var height := |b.blocks|;
    if height == 0 then Failure(BlockDoesNotExist)
    else
      var block :- OrThrow(Find(b.blocks, height - 1), BlockDoesNotExist);
      var info :- OrThrow(Find(b.blockInfo, height - 1), BlockDoesNotExist);
      if info.hash !in b.blockHeights then Failure(DatabaseError)
      else Success((ChainTables(Delete(b.blocks, height - 1), Delete(b.blockInfo, height - 1), b.blockHeights - {info.hash}), block))
  }

  /** The first n transactions of a block, last first; they are collected as they go. */
  function RemoveTransactions(h: Hashing, s: State, hashes: seq<Hash>, n: nat, popped: seq<Fetched>): Outcome<(State, seq<Fetched>)>
    requires n <= |hashes|
    decreases n
  {
    if n == 0 then Success((s, popped))
    else
      var tx :- OrThrow(Fetch(s.txs, hashes[n - 1]), DatabaseError);
      var rest :- RemoveTransaction(h, s, hashes[n - 1]);
      RemoveTransactions(h, rest, hashes, n - 1, popped + [tx])
  }

  datatype Popped = Popped(state: State, block: Block, txs: seq<Fetched>)

  /** pop_block. */
  function PopBlock(h: Hashing, s: State): Outcome<Popped> {
    var top :- RemoveBlock(s.chain);
    var rest :- RemoveTransactions(h, s.(chain := top.0), top.1.txHashes, |top.1.txHashes|, []);
    var state :- RemoveTransaction(h, rest.0, h.txHash(top.1.minerTx));
    Success(Popped(state, top.1, rest.1))
  }
}
