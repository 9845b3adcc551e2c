/** pop_block undoes add_block, and what follows for chains of blocks. */
module Reorganization {
  import opened Outcomes
  import opened KeyedTables
  import opened Ledger

  // ----- Undoing one step at a time -----

  /** The key images of a list of inputs, in order. */
  function Images(h: Hashing, vin: seq<Input>): seq<KeyImage> {
    if vin == [] then []
    else (if ImageOf(h, vin[0]).Some? then [ImageOf(h, vin[0]).value] else []) + Images(h, vin[1..])
  }

  ghost predicate Distinct<T(!new)>(s: seq<T>) {
    forall i, j :: 0 <= i < j < |s| ==> s[i] != s[j]
  }

  function Elements<T(==)>(s: seq<T>): set<T> {
    set x | x in s
  }

  /** Inputs can be spent exactly when each is supported and brings a key image not seen before. */
  lemma {:induction false} SpendIsFresh(h: Hashing, keys: set<KeyImage>, vin: seq<Input>)
    ensures Spend(h, keys, vin).Success? <==>
            (forall i :: 0 <= i < |vin| ==> !vin[i].OtherInput?) && Distinct(Images(h, vin)) && Elements(Images(h, vin)) !! keys
    ensures Spend(h, keys, vin).Success? ==> Spend(h, keys, vin).value == keys + Elements(Images(h, vin))
    decreases |vin|
  {
    if vin != [] {
      var tail, image := Images(h, vin[1..]), ImageOf(h, vin[0]);
      assert forall i :: 0 < i < |vin| ==> vin[i] == vin[1..][i - 1];
      if image.None? {
        assert Images(h, vin) == tail;
        SpendIsFresh(h, keys, vin[1..]);
      } else {
        SpendIsFresh(h, keys + {image.value}, vin[1..]);
        var all := Images(h, vin);
        assert all[1..] == tail && all[0] == image.value;
        assert Elements(all) == {image.value} + Elements(tail);
        assert Distinct(all) <==> Distinct(tail) && image.value !in tail;
      }
    }
  }

  lemma {:induction false} UnspendRemoves(h: Hashing, keys: set<KeyImage>, vin: seq<Input>)
    ensures Unspend(h, keys, vin) == keys - Elements(Images(h, vin))
    decreases |vin|
  {
    if vin != [] {
      var image := ImageOf(h, vin[0]);
      UnspendRemoves(h, if image.Some? then keys - {image.value} else keys, vin[1..]);
    }
  }

  lemma UnspendUndoes(h: Hashing, keys: set<KeyImage>, vin: seq<Input>)
    requires Spend(h, keys, vin).Success?
    ensures Unspend(h, Spend(h, keys, vin).value, vin) == keys
  {
    SpendIsFresh(h, keys, vin);
    UnspendRemoves(h, Spend(h, keys, vin).value, vin);
  }

  lemma RemoveOutputUndoes(o: Outputs, hash: Hash, amount: nat, target: Option<Key>, local: nat,
                           unlockTime: nat, height: nat, commitment: Option<Key>)
    requires AddOutput(o, hash, amount, target, local, unlockTime, height, commitment).Success?
    ensures var r := AddOutput(o, hash, amount, target, local, unlockTime, height, commitment).value;
            RemoveOutput(r.0, amount, r.1) == Success(o)
  {
    hide Find, Delete;
    var r := AddOutput(o, hash, amount, target, local, unlockTime, height, commitment).value;
    var id, bucket := NumOutputs(o.outputTxs), Bucket(o.outputAmounts, amount);
    var record := OutKey(id, target.value, unlockTime, height, if amount == 0 then commitment else None);
    DeleteAppended(o.outputTxs, id, OutTx(hash, local));
    DeleteAppended(bucket, |bucket|, record);
    assert r.0.outputAmounts == o.outputAmounts[amount := bucket + [Record(|bucket|, record)]];
    if bucket == [] {
      assert r.0.outputAmounts - {amount} == o.outputAmounts;
    } else {
      assert r.0.outputAmounts[amount := bucket] == o.outputAmounts;
    }
  }

  lemma {:induction false} RemoveOutputsUndoes(h: Hashing, o: Outputs, tx: TxBase, hash: Hash, height: nat, i: nat, indices: seq<nat>)
    requires i <= |tx.vout| && |indices| == i
    requires StoreOutputs(h, o, tx, hash, height, i, indices).Success?
    ensures var r := StoreOutputs(h, o, tx, hash, height, i, indices).value;
            && |r.1| == |tx.vout| && r.1[..i] == indices
            && RemoveOutputs(r.0, tx, r.1, |tx.vout|) == RemoveOutputs(o, tx, r.1, i)
    decreases |tx.vout| - i
  {
    hide AddOutput, RemoveOutput;
    if i < |tx.vout| {
      var next := StoreOutput(h, o, tx, hash, height, i).value;
      RemoveOutputsUndoes(h, next.0, tx, hash, height, i + 1, indices + [next.1]);
      var r := StoreOutputs(h, o, tx, hash, height, i, indices).value;
      assert r.1[i] == (indices + [next.1])[i];
      StoreOutputUndone(h, o, tx, hash, height, i);
    }
  }

  lemma StoreOutputUndone(h: Hashing, o: Outputs, tx: TxBase, hash: Hash, height: nat, i: nat)
    requires i < |tx.vout| && StoreOutput(h, o, tx, hash, height, i).Success?
    ensures var r := StoreOutput(h, o, tx, hash, height, i).value;
            RemoveOutput(r.0, BucketOf(tx, i), r.1) == Success(o)
  {
    hide AddOutput, RemoveOutput;
    var target := tx.vout[i].target;
    if PseudoRct(tx) {
      RemoveOutputUndoes(o, hash, 0, target, i, tx.unlockTime, height, Some(h.zeroCommit(tx.vout[i].amount)));
    } else {
      RemoveOutputUndoes(o, hash, tx.vout[i].amount, target, i, tx.unlockTime, height, if tx.version > 1 then Some(tx.outPk[i]) else None);
    }
  }

  /** What add_transaction_data leaves behind, whatever happens to the output indices afterwards. */
  lemma TxDataAdded(h: Hashing, t: Txs, tx: Transaction, hash: Hash, height: nat, txOutputs: Table<seq<nat>>)
    requires AddTxData(h, t, tx, hash, height).Success?
    ensures var (data, id) := AddTxData(h, t, tx, hash, height).value;
            && id == |t.txsPruned| && data.txOutputs == t.txOutputs
            && hash !in t.txIndices && data.txIndices == t.txIndices[hash := TxIndex(id, tx.base.unlockTime, height)]
            && Fetch(data.(txOutputs := txOutputs), hash) == Some(Whole(tx))
            && RemoveBlobs(data.(txOutputs := txOutputs), id, tx.base) == Success(t.(txIndices := data.txIndices, txOutputs := txOutputs))
  {
    hide Find, Delete;
    var id := |t.txsPruned|;
    DeleteAppended(t.txsPruned, id, tx.base);
    DeleteAppended(t.txsPrunable, id, tx.prunable);
    DeleteAppended(t.txsPrunableHash, id, h.prunableHash(tx));
  }

  /** remove_transaction undoes add_transaction, which leaves the blocks alone. */
  lemma RemoveTransactionUndoes(h: Hashing, s: State, tx: Transaction, hash: Hash)
    requires AddTransaction(h, s, tx, hash).Success?
    ensures var after := AddTransaction(h, s, tx, hash).value;
            && after.chain == s.chain && Fetch(after.txs, hash) == Some(Whole(tx))
            && RemoveTransaction(h, after, hash) == Success(s)
  {
    hide Find, Delete, Spend, Unspend, StoreOutputs, RemoveOutputs, AddTxData, RemoveBlobs;
    var after := AddTransaction(h, s, tx, hash).value;
    var height := |s.chain.blocks|;
    var (data, id) := AddTxData(h, s.txs, tx, hash, height).value;
    UnspendUndoes(h, s.spentKeys, tx.base.vin);
    TxDataAdded(h, s.txs, tx, hash, height, after.txs.txOutputs);
    RemoveOutputsUndoes(h, s.outs, tx.base, hash, height, 0, []);
    var outs := StoreOutputs(h, s.outs, tx.base, hash, height, 0, []).value;
    DeleteAppended(s.txs.txOutputs, id, outs.1);
    assert RemoveOutputs(s.outs, tx.base, outs.1, 0) == Success(s.outs) by { NoOutputs(s.outs, tx.base, outs.1); }
    assert after.txs.txIndices - {hash} == s.txs.txIndices;
  }

  lemma NoOutputs(o: Outputs, tx: TxBase, indices: seq<nat>)
    ensures RemoveOutputs(o, tx, indices, 0) == Success(o)
  {
  }

  function Reversed<T>(s: seq<T>): (r: seq<T>)
    ensures |r| == |s| && forall i :: 0 <= i < |s| ==> r[i] == s[|s| - 1 - i]
  {
    seq(|s|, i requires 0 <= i < |s| => s[|s| - 1 - i])
  }

  function AllWhole(txs: seq<Transaction>): (r: seq<Fetched>)
    ensures |r| == |txs| && forall i :: 0 <= i < |txs| ==> r[i] == Whole(txs[i])
  {
    seq(|txs|, i requires 0 <= i < |txs| => Whole(txs[i]))
  }

  lemma {:induction false} RemoveTransactionsUndoes(h: Hashing, s: State, txs: seq<Transaction>, hashes: seq<Hash>, i: nat)
    requires i <= |txs| == |hashes| && AddTransactions(h, s, txs, hashes, i).Success?
    ensures var after := AddTransactions(h, s, txs, hashes, i).value;
            && after.chain == s.chain
            && RemoveTransactions(h, after, hashes, |hashes|, []) == RemoveTransactions(h, s, hashes, i, AllWhole(Reversed(txs[i..])))
    decreases |txs| - i
  {
    hide AddTransaction, RemoveTransaction, Fetch;
    if i == |txs| {
      assert AllWhole(Reversed(txs[i..])) == [];
    } else {
      var next := AddTransaction(h, s, txs[i], hashes[i]).value;
      RemoveTransactionsUndoes(h, next, txs, hashes, i + 1);
      RemoveTransactionUndoes(h, s, txs[i], hashes[i]);
      assert AllWhole(Reversed(txs[i + 1..])) + [Whole(txs[i])] == AllWhole(Reversed(txs[i..]));
    }
  }

  lemma RemoveBlockUndoes(h: Hashing, b: ChainTables, e: Entry, numRctOuts: nat)
    requires AddBlockData(h, b, e, numRctOuts).Success?
    ensures RemoveBlock(AddBlockData(h, b, e, numRctOuts).value) == Success((b, e.block))
  {
    hide Find, Delete;
    var after := AddBlockData(h, b, e, numRctOuts).value;
    var height := |b.blocks|;
    DeleteAppended(b.blocks, height, e.block);
    DeleteAppended(b.blockInfo, height, after.blockInfo[|b.blockInfo|].value);
    assert after.blockHeights - {h.blockHash(e.block)} == b.blockHeights;
  }

  /** pop_block undoes add_block, and gives back the block and its transactions in reverse order. */
  lemma PopUndoesAdd(h: Hashing, s: State, e: Entry)
    requires AddBlock(h, s, e).Success?
    ensures PopBlock(h, AddBlock(h, s, e).value) == Success(Popped(s, e.block, AllWhole(Reversed(e.txs))))
  {
    hide AddTransaction, RemoveTransaction, AddTransactions, RemoveTransactions, AddBlockData, RemoveBlock;
    var minerHash := h.txHash(e.block.minerTx);
    var coinbase := AddTransaction(h, s, e.block.minerTx, minerHash).value;
    var all := AddTransactions(h, coinbase, e.txs, e.block.txHashes, 0).value;
    var after := AddBlock(h, s, e).value;
    RemoveBlockUndoes(h, all.chain, e, BlockRctOuts(e));
    RemoveTransactionsUndoes(h, coinbase, e.txs, e.block.txHashes, 0);
    assert e.txs[0..] == e.txs;
    assert after.(chain := all.chain) == all;
    NoTransactions(h, coinbase, e.block.txHashes, AllWhole(Reversed(e.txs)));
    RemoveTransactionUndoes(h, s, e.block.minerTx, minerHash);
  }

  lemma NoTransactions(h: Hashing, s: State, hashes: seq<Hash>, popped: seq<Fetched>)
    ensures RemoveTransactions(h, s, hashes, 0, popped) == Success((s, popped))
  {
  }

  // ----- Chains of blocks -----

  /** Adding blocks, and nothing else, to the empty database. */
  function Replay(h: Hashing, entries: seq<Entry>): Outcome<State> {
    if entries == [] then Success(EMPTY)
    else
      var before :- Replay(h, entries[..|entries| - 1]);
      AddBlock(h, before, entries[|entries| - 1])
  }

  lemma ReplayOneMore(h: Hashing, entries: seq<Entry>, e: Entry)
    requires Replay(h, entries).Success?
    ensures Replay(h, entries + [e]) == AddBlock(h, Replay(h, entries).value, e)
  {
    hide AddBlock;
    assert (entries + [e])[..|entries|] == entries;
  }

  lemma PopReplayed(h: Hashing, entries: seq<Entry>)
    requires Replay(h, entries).Success?
    ensures entries == [] ==> PopBlock(h, Replay(h, entries).value) == Failure(BlockDoesNotExist)
    ensures entries != [] ==>
              var last, before := entries[|entries| - 1], Replay(h, entries[..|entries| - 1]);
              before.Success? && PopBlock(h, Replay(h, entries).value) == Success(Popped(before.value, last.block, AllWhole(Reversed(last.txs))))
  {
    hide AddBlock;
    if entries != [] {
      PopUndoesAdd(h, Replay(h, entries[..|entries| - 1]).value, entries[|entries| - 1]);
    }
  }

  // ----- Popping and adding back -----

  /** Popping k blocks: what is left, and the popped blocks with their transactions, first popped last. */
  function PopMany(h: Hashing, s: State, k: nat): Outcome<(State, seq<Popped>)>
    decreases k
  {
    if k == 0 then Success((s, []))
    else
      var top :- PopBlock(h, s);
      var rest :- PopMany(h, top.state, k - 1);
      Success((rest.0, rest.1 + [top]))
  }

  ghost predicate Unpruned(txs: seq<Fetched>) {
    forall i :: 0 <= i < |txs| ==> txs[i].Whole?
  }

  function Unwrapped(txs: seq<Fetched>): (r: seq<Transaction>)
    requires Unpruned(txs)
    ensures AllWhole(r) == txs
  {
    seq(|txs|, i requires 0 <= i < |txs| => txs[i].tx)
  }

  /** The popped block as an argument of add_block: its transactions reversed again, the rest as it was. */
  function AddedBack(p: Popped, original: Entry): Entry
    requires Unpruned(p.txs)
  {
    original.(block := p.block, txs := Reversed(Unwrapped(p.txs)))
  }

  lemma AddedBackIsOriginal(p: Popped, e: Entry)
    requires p.block == e.block && p.txs == AllWhole(Reversed(e.txs))
    ensures AddedBack(p, e) == e
  {
    var txs := Unwrapped(p.txs);
    assert forall i :: 0 <= i < |txs| ==> AllWhole(txs)[i] == Whole(txs[i]);
    assert txs == Reversed(e.txs);
    assert Reversed(txs) == e.txs;
  }

  function AddMany(h: Hashing, s: State, entries: seq<Entry>): Outcome<State>
    decreases |entries|
  {
    if entries == [] then Success(s)
    else
      var next :- AddBlock(h, s, entries[0]);
      AddMany(h, next, entries[1..])
  }

  lemma {:induction false} ReplayPrefix(h: Hashing, entries: seq<Entry>, m: nat)
    requires Replay(h, entries).Success? && m <= |entries|
    ensures Replay(h, entries[..m]).Success?
  {
    hide AddBlock;
    if m == |entries| {
      assert entries[..m] == entries;
    } else {
      ReplayPrefix(h, entries[..|entries| - 1], m);
      assert entries[..|entries| - 1][..m] == entries[..m];
    }
  }

  lemma {:induction false} AddManyIsReplay(h: Hashing, entries: seq<Entry>, m: nat)
    requires Replay(h, entries).Success? && m <= |entries|
    requires Replay(h, entries[..m]).Success?
    ensures AddMany(h, Replay(h, entries[..m]).value, entries[m..]) == Replay(h, entries)
    decreases |entries| - m
  {
    hide AddBlock;
    if m == |entries| {
      assert entries[..m] == entries;
    } else {
      ReplayPrefix(h, entries, m + 1);
      assert entries[..m + 1] == entries[..m] + [entries[m]];
      ReplayOneMore(h, entries[..m], entries[m]);
      AddManyIsReplay(h, entries, m + 1);
      assert entries[m..][1..] == entries[m + 1..];
    }
  }

  lemma {:induction false} PopManyReplayed(h: Hashing, entries: seq<Entry>, k: nat)
    requires Replay(h, entries).Success? && k <= |entries|
    ensures var n := |entries|;
            var r := PopMany(h, Replay(h, entries).value, k);
            && r.Success? && Replay(h, entries[..n - k]) == Success(r.value.0) && |r.value.1| == k
            && (forall i :: 0 <= i < k ==> r.value.1[i].block == entries[n - k + i].block)
            && (forall i :: 0 <= i < k ==> r.value.1[i].txs == AllWhole(Reversed(entries[n - k + i].txs)))
    decreases k
  {
    hide AddBlock, PopBlock, Replay;
    if k == 0 {
      assert entries[..|entries|] == entries;
    } else {
      PopReplayed(h, entries);
      var shorter := entries[..|entries| - 1];
      PopManyReplayed(h, shorter, k - 1);
      assert shorter[..|shorter| - (k - 1)] == entries[..|entries| - k];
    }
  }

  /**
   * Popping any k blocks and adding each back, with the transactions pop_block returned put in
   * reverse order, reproduces the state.
   */
  lemma PopAndAddBack(h: Hashing, entries: seq<Entry>, k: nat)
    requires Replay(h, entries).Success? && k <= |entries|
    ensures var s := Replay(h, entries).value;
            var r := PopMany(h, s, k);
            && r.Success? && |r.value.1| == k
            && (forall i :: 0 <= i < k ==> Unpruned(r.value.1[i].txs))
            && AddMany(h, r.value.0, seq(k, i requires 0 <= i < k => AddedBack(r.value.1[i], entries[|entries| - k + i]))) == Success(s)
  {
    hide AddBlock, PopBlock, Replay, PopMany, AddMany;
    var m := |entries| - k;
    PopManyReplayed(h, entries, k);
    var popped := PopMany(h, Replay(h, entries).value, k).value.1;
    forall i | 0 <= i < k ensures Unpruned(popped[i].txs) && AddedBack(popped[i], entries[m + i]) == entries[m + i] {
      AddedBackIsOriginal(popped[i], entries[m + i]);
    }
    assert seq(k, i requires 0 <= i < k => AddedBack(popped[i], entries[m + i])) == entries[m..];
    AddManyIsReplay(h, entries, m);
  }

  /** Adding a popped block back without reversing its transactions gives the same state exactly when the order does not matter. */
  lemma AddBackUnreversed(h: Hashing, s: State, e: Entry)
    requires AddBlock(h, s, e).Success? && AddBlock(h, s, e.(txs := Reversed(e.txs))).Success?
    ensures AddBlock(h, s, e.(txs := Reversed(e.txs))) == AddBlock(h, s, e) <==> Reversed(e.txs) == e.txs
  {
    hide AddBlock, PopBlock, Reversed, AllWhole;
    var unreversed := e.(txs := Reversed(e.txs));
    PopUndoesAdd(h, s, e);
    PopUndoesAdd(h, s, unreversed);
    ReversedTwice(e.txs);
    if AddBlock(h, s, unreversed) == AddBlock(h, s, e) {
      AllWholeInjective(e.txs, Reversed(e.txs));
    }
  }

  lemma ReversedTwice<T>(s: seq<T>)
    ensures Reversed(Reversed(s)) == s
  {
  }

  lemma AllWholeInjective(a: seq<Transaction>, b: seq<Transaction>)
    requires AllWhole(a) == AllWhole(b)
    ensures a == b
  {
    assert forall i :: 0 <= i < |a| ==> AllWhole(a)[i] == Whole(a[i]);
  }
}
