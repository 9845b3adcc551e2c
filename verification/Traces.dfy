/**
 * A failed add_block that wrote something leaves a trace that no later add_block or pop_block
 * removes, so that a run ends in the state of its surviving blocks exactly when it is clean.
 */
module Traces {
  import opened Outcomes
  import opened KeyedTables
  import opened Ledger
  import opened Reorganization
  import opened FailedCalls
  import opened WriteBatches
  import opened LedgerInvariants
  import opened ReachableStates

  // ----- Tables with gaps -----

  ghost predicate Ascending<V>(t: Table<V>) {
    forall i, j :: 0 <= i < j < |t| ==> t[i].key < t[j].key
  }

  lemma {:induction false} DeleteFind<V>(t: Table<V>, key: nat, other: nat)
    requires Find(t, key).Some?
    ensures other != key ==> Find(Delete(t, key), other) == Find(t, other)
  {
    var n := |t| - 1;
    if t[n].key != key {
      DeleteFind(t[..n], key, other);
      assert t[n] == Record(t[n].key, t[n].value);
      FindAppended(Delete(t[..n], key), t[n].key, t[n].value, other);
      if other == t[n].key {
        DeleteAppended(Delete(t[..n], key), t[n].key, t[n].value);
      }
    }
  }

  ghost predicate AllBelow<V>(t: Table<V>, key: nat) {
    forall i :: 0 <= i < |t| ==> t[i].key < key
  }

  lemma {:induction false} DeleteBelow<V>(t: Table<V>, key: nat, bound: nat)
    requires Find(t, key).Some? && AllBelow(t, bound)
    ensures AllBelow(Delete(t, key), bound)
  {
    var n := |t| - 1;
    if t[n].key != key {
      DeleteBelow(t[..n], key, bound);
    }
  }

  lemma {:induction false} DeleteAscends<V>(t: Table<V>, key: nat)
    requires Ascending(t) && Find(t, key).Some?
    ensures Ascending(Delete(t, key))
  {
    var n := |t| - 1;
    if t[n].key != key {
      DeleteAscends(t[..n], key);
      DeleteBelow(t[..n], key, t[n].key);
    }
  }

  // ----- Transactions -----

  ghost predicate NotListed(stored: seq<Stored>, hash: Hash) {
    forall i :: 0 <= i < |stored| ==> stored[i].hash != hash
  }

  /** Every listed transaction can be found, each under an id of its own. */
  ghost predicate Findable(t: Txs, stored: seq<Stored>) {
    && Ascending(t.txsPruned)
    && (forall i :: 0 <= i < |stored| ==> FindBase(t, stored[i].hash) == Some(stored[i].tx.base))
    && (forall i, j :: 0 <= i < j < |stored| ==> t.txIndices[stored[i].hash].txId != t.txIndices[stored[j].hash].txId)
  }

  /** The key images of the listed transactions are spent, each once. */
  ghost predicate KeysListed(h: Hashing, keys: set<KeyImage>, stored: seq<Stored>) {
    var images := StoredImages(h, stored);
    Elements(images) <= keys && Distinct(images)
  }

  /** An index of a transaction, or a key image, that belongs to no listed transaction. */
  ghost predicate Traced(h: Hashing, s: State, stored: seq<Stored>) {
    || (exists hash :: hash in s.txs.txIndices && NotListed(stored, hash))
    || (exists k :: k in s.spentKeys && k !in StoredImages(h, stored))
  }

  ghost predicate Sound(h: Hashing, s: State, stored: seq<Stored>) {
    Findable(s.txs, stored) && KeysListed(h, s.spentKeys, stored)
  }

  lemma FindableListed(t: Txs, stored: seq<Stored>, hash: Hash)
    requires Findable(t, stored) && hash !in t.txIndices
    ensures NotListed(stored, hash)
  {
    forall i | 0 <= i < |stored| ensures stored[i].hash != hash {
      assert FindBase(t, stored[i].hash) == Some(stored[i].tx.base);
    }
  }

  /** Filing one more transaction leaves the listed ones where they are. */
  lemma FindableGrows(t: Txs, u: Txs, hash: Hash, index: TxIndex, base: TxBase, stored: seq<Stored>)
    requires Findable(t, stored) && hash !in t.txIndices && u.txIndices == t.txIndices[hash := index]
    requires u.txsPruned == t.txsPruned || Append(t.txsPruned, index.txId, base) == Some(u.txsPruned)
    ensures Findable(u, stored)
    ensures forall i :: 0 <= i < |stored| ==> stored[i].hash in u.txIndices && Find(t.txsPruned, u.txIndices[stored[i].hash].txId).Some?
  {
    hide Find;
    FindableListed(t, stored, hash);
    if u.txsPruned != t.txsPruned {
      FindAbove(t.txsPruned, index.txId);
    }
    forall i | 0 <= i < |stored| ensures FindBase(u, stored[i].hash) == Some(stored[i].tx.base) {
      assert FindBase(t, stored[i].hash) == Some(stored[i].tx.base);
      FindAppended(t.txsPruned, index.txId, base, t.txIndices[stored[i].hash].txId);
    }
  }

  lemma FindableAdded(h: Hashing, t: Txs, tx: Transaction, hash: Hash, height: nat, txOutputs: Table<seq<nat>>, stored: seq<Stored>)
    requires Findable(t, stored) && AddTxData(h, t, tx, hash, height).Success?
    ensures var u := AddTxData(h, t, tx, hash, height).value.0.(txOutputs := txOutputs);
            Findable(u, stored + [Stored(tx, hash, height)])
  {
    hide Find;
    var (data, id) := AddTxData(h, t, tx, hash, height).value;
    var u, all, n := data.(txOutputs := txOutputs), stored + [Stored(tx, hash, height)], |stored|;
    var index := TxIndex(id, tx.base.unlockTime, height);
    FindableGrows(t, u, hash, index, tx.base, stored);
    DeleteAppended(t.txsPruned, id, tx.base);
    FindAbove(t.txsPruned, id);
    assert FindBase(u, hash) == Some(tx.base);
    forall i, j | 0 <= i < j < |all| ensures u.txIndices[all[i].hash].txId != u.txIndices[all[j].hash].txId {
      if j == n {
        assert Find(t.txsPruned, u.txIndices[stored[i].hash].txId).Some?;
      }
    }
  }

  lemma FindableLeft(t: Txs, tx: Transaction, hash: Hash, height: nat, stored: seq<Stored>)
    requires Findable(t, stored)
    ensures Findable(AddTxDataLeft(t, tx, hash, height), stored)
  {
    if hash !in t.txIndices {
      FindableGrows(t, AddTxDataLeft(t, tx, hash, height), hash, TxIndex(|t.txsPruned|, tx.base.unlockTime, height), tx.base, stored);
    }
  }

  lemma {:induction false} SpendLeftGrows(h: Hashing, keys: set<KeyImage>, vin: seq<Input>)
    ensures keys <= SpendLeft(h, keys, vin)
    decreases |vin|
  {
    if vin != [] && SpendOne(h, keys, vin[0]).Success? {
      SpendLeftGrows(h, SpendOne(h, keys, vin[0]).value, vin[1..]);
    }
  }

  /** What is traced stays traced while keys and indices only grow. */
  lemma TracedGrows(h: Hashing, s: State, t: State, stored: seq<Stored>)
    requires Traced(h, s, stored) && s.spentKeys <= t.spentKeys && s.txs.txIndices.Keys <= t.txs.txIndices.Keys
    ensures Traced(h, t, stored)
  {
    hide NotListed, StoredImages;
    if hash :| hash in s.txs.txIndices && NotListed(stored, hash) {
      assert hash in t.txs.txIndices.Keys;
    }
  }

  lemma AddTransactionGrows(h: Hashing, s: State, tx: Transaction, hash: Hash)
    ensures s.spentKeys <= AddTransactionLeft(h, s, tx, hash).spentKeys
    ensures AddTransaction(h, s, tx, hash).Success? ==> s.spentKeys <= AddTransaction(h, s, tx, hash).value.spentKeys
    ensures AddTransaction(h, s, tx, hash).Success? ==> AddTransaction(h, s, tx, hash).value.chain == s.chain
    ensures AddTransactionLeft(h, s, tx, hash).chain == s.chain
  {
    hide Spend, SpendLeft, AddTxData, AddTxDataLeft, StoreOutputs, StoreOutputsLeft, Append;
    SpendLeftGrows(h, s.spentKeys, tx.base.vin);
    SpendIsFresh(h, s.spentKeys, tx.base.vin);
  }

  /** add_transaction: the new transaction is listed, and a trace remains one. */
  lemma AddedSound(h: Hashing, s: State, tx: Transaction, hash: Hash, stored: seq<Stored>, after: State, height: nat)
    requires Sound(h, s, stored) && AddTransaction(h, s, tx, hash) == Success(after)
    ensures Sound(h, after, stored + [Stored(tx, hash, height)])
    ensures Traced(h, s, stored) ==> Traced(h, after, stored + [Stored(tx, hash, height)])
    ensures NotListed(stored, hash) && hash in after.txs.txIndices
  {
    hide Spend, AddTxData, StoreOutputs, Append, Findable, Images, StoredImages;
    var blockHeight := |s.chain.blocks|;
    var data := AddTxData(h, s.txs, tx, hash, blockHeight).value.0;
    FindableAdded(h, s.txs, tx, hash, blockHeight, after.txs.txOutputs, stored);
    SameButHeight(after.txs, stored, tx, hash, blockHeight, height);
    KeysAdded(h, s.spentKeys, Stored(tx, hash, height), stored);
    IndicesStay(h, s, tx, hash);
    FindableListed(s.txs, stored, hash);
    if Traced(h, s, stored) {
      TraceNotAdded(h, s, after, Stored(tx, hash, height), stored);
    }
  }

  lemma SameButHeight(t: Txs, stored: seq<Stored>, tx: Transaction, hash: Hash, a: nat, b: nat)
    requires Findable(t, stored + [Stored(tx, hash, a)])
    ensures Findable(t, stored + [Stored(tx, hash, b)])
  {
    hide FindBase;
    var p, q := stored + [Stored(tx, hash, a)], stored + [Stored(tx, hash, b)];
    assert forall i :: 0 <= i < |p| ==> q[i].hash == p[i].hash && q[i].tx == p[i].tx;
  }

  lemma KeysAdded(h: Hashing, keys: set<KeyImage>, st: Stored, stored: seq<Stored>)
    requires KeysListed(h, keys, stored) && Spend(h, keys, st.tx.base.vin).Success?
    ensures KeysListed(h, Spend(h, keys, st.tx.base.vin).value, stored + [st])
    ensures keys <= Spend(h, keys, st.tx.base.vin).value
    ensures Elements(Images(h, st.tx.base.vin)) !! keys
  {
    hide Spend, Images;
    SpendIsFresh(h, keys, st.tx.base.vin);
    assert (stored + [st])[..|stored|] == stored;
    var a, b := StoredImages(h, stored), Images(h, st.tx.base.vin);
    assert Elements(a + b) == Elements(a) + Elements(b);
    assert forall i :: 0 <= i < |a| ==> a[i] in Elements(a);
    assert forall i :: 0 <= i < |b| ==> b[i] in Elements(b);
  }

  lemma TraceNotAdded(h: Hashing, s: State, after: State, st: Stored, stored: seq<Stored>)
    requires Traced(h, s, stored) && st.hash !in s.txs.txIndices && Elements(Images(h, st.tx.base.vin)) !! s.spentKeys
    requires s.spentKeys <= after.spentKeys && s.txs.txIndices.Keys <= after.txs.txIndices.Keys
    ensures Traced(h, after, stored + [st])
  {
    hide Images;
    var all := stored + [st];
    assert all[..|stored|] == stored;
    if hash :| hash in s.txs.txIndices && NotListed(stored, hash) {
      assert hash in after.txs.txIndices.Keys && NotListed(all, hash);
    } else {
      var k :| k in s.spentKeys && k !in StoredImages(h, stored);
      assert k !in Images(h, st.tx.base.vin) by {
        assert k in Images(h, st.tx.base.vin) ==> k in Elements(Images(h, st.tx.base.vin));
      }
      assert k !in StoredImages(h, all);
    }
  }

  /** A failed add_transaction keeps what is listed, and leaves a trace unless it leaves nothing. */
  lemma LeftSound(h: Hashing, s: State, tx: Transaction, hash: Hash, stored: seq<Stored>)
    requires Sound(h, s, stored)
    ensures Sound(h, AddTransactionLeft(h, s, tx, hash), stored)
    ensures Traced(h, s, stored) ==> Traced(h, AddTransactionLeft(h, s, tx, hash), stored)
    ensures AddTransactionLeft(h, s, tx, hash) != s && AddTransaction(h, s, tx, hash).Failure? ==>
              Traced(h, AddTransactionLeft(h, s, tx, hash), stored)
  {
    hide Spend, SpendLeft, AddTxData, AddTxDataLeft, StoreOutputs, StoreOutputsLeft, Append, Findable, StoredImages, Images, Traced;
    var left, height := AddTransactionLeft(h, s, tx, hash), |s.chain.blocks|;
    AddTransactionGrows(h, s, tx, hash);
    IndicesStay(h, s, tx, hash);
    FindableLeft(s.txs, tx, hash, height, stored);
    if AddTxData(h, s.txs, tx, hash, height).Success? {
      FindableAdded(h, s.txs, tx, hash, height, s.txs.txOutputs, stored);
      TxDataAdded(h, s.txs, tx, hash, height, s.txs.txOutputs);
      FindablePrefix(left.txs, stored, Stored(tx, hash, height));
    }
    if Traced(h, s, stored) {
      TracedGrows(h, s, left, stored);
    }
    if left != s && AddTransaction(h, s, tx, hash).Failure? {
      LeftTraced(h, s, tx, hash, stored);
    }
  }

  lemma FindablePrefix(t: Txs, stored: seq<Stored>, st: Stored)
    ensures Findable(t, stored + [st]) ==> Findable(t, stored)
  {
    hide FindBase;
    var all := stored + [st];
    assert forall i :: 0 <= i < |stored| ==> all[i] == stored[i];
  }

  lemma LeftTraced(h: Hashing, s: State, tx: Transaction, hash: Hash, stored: seq<Stored>)
    requires Sound(h, s, stored) && AddTransactionLeft(h, s, tx, hash) != s && AddTransaction(h, s, tx, hash).Failure?
    ensures Traced(h, AddTransactionLeft(h, s, tx, hash), stored)
  {
    hide Spend, SpendLeft, AddTxData, AddTxDataLeft, StoreOutputs, StoreOutputsLeft, Append, Findable, StoredImages;
    var left, height := AddTransactionLeft(h, s, tx, hash), |s.chain.blocks|;
    AddTransactionGrows(h, s, tx, hash);
    AddTxDataLeftIndexes(s.txs, tx, hash, height);
    if AddTxData(h, s.txs, tx, hash, height).Success? {
      TxDataAdded(h, s.txs, tx, hash, height, s.txs.txOutputs);
    }
    if left.spentKeys != s.spentKeys {
      var k :| k in left.spentKeys && k !in s.spentKeys;
      assert k !in StoredImages(h, stored) by {
        assert k in StoredImages(h, stored) ==> k in Elements(StoredImages(h, stored));
      }
    } else {
      FindableListed(s.txs, stored, hash);
    }
  }

  // ----- Removing -----

  lemma {:induction false} UnspendKeeps(h: Hashing, keys: set<KeyImage>, st: Stored, stored: seq<Stored>)
    requires KeysListed(h, keys, stored + [st])
    ensures KeysListed(h, Unspend(h, keys, st.tx.base.vin), stored)
    ensures forall k :: k in keys && k !in StoredImages(h, stored + [st]) ==>
                          k in Unspend(h, keys, st.tx.base.vin) && k !in StoredImages(h, stored)
  {
    hide Unspend, Images;
    UnspendRemoves(h, keys, st.tx.base.vin);
    assert (stored + [st])[..|stored|] == stored;
    var a, b := StoredImages(h, stored), Images(h, st.tx.base.vin);
    var all := a + b;
    assert StoredImages(h, stored + [st]) == all;
    assert forall i :: 0 <= i < |a| ==> all[i] == a[i];
    assert forall i :: 0 <= i < |b| ==> all[|a| + i] == b[i];
    forall k | k in Elements(a) ensures k in keys && k !in Elements(b) {
      var i :| 0 <= i < |a| && a[i] == k;
      assert all[i] in Elements(all);
      forall j | 0 <= j < |b| ensures b[j] != k {
        assert all[i] != all[|a| + j];
      }
    }
    forall k | k in keys && k !in all ensures k !in Elements(b) && k !in a {
      assert k in b ==> k in all;
    }
  }

  /** What remove_transaction does to the indices and the pruned transactions. */
  lemma RemovedTables(h: Hashing, s: State, hash: Hash, after: State)
    requires RemoveTransaction(h, s, hash) == Success(after)
    ensures after.chain == s.chain && hash in s.txs.txIndices && after.txs.txIndices == s.txs.txIndices - {hash}
    ensures var id := s.txs.txIndices[hash].txId;
            && Find(s.txs.txsPruned, id).Some? && after.txs.txsPruned == Delete(s.txs.txsPruned, id)
            && after.spentKeys == Unspend(h, s.spentKeys, Find(s.txs.txsPruned, id).value.vin)
  {
    hide Find, Delete, Unspend, RemoveOutputs;
  }

  lemma FindableRemoved(t: Txs, u: Txs, st: Stored, stored: seq<Stored>)
    requires Findable(t, stored + [st]) && u.txIndices == t.txIndices - {st.hash}
    requires st.hash in t.txIndices && Find(t.txsPruned, t.txIndices[st.hash].txId).Some?
    requires u.txsPruned == Delete(t.txsPruned, t.txIndices[st.hash].txId)
    ensures Findable(u, stored)
  {
    hide Find, Delete;
    var all, n, id := stored + [st], |stored|, t.txIndices[st.hash].txId;
    DeleteAscends(t.txsPruned, id);
    forall i | 0 <= i < n ensures FindBase(u, stored[i].hash) == Some(stored[i].tx.base) {
      assert all[i] == stored[i] && FindBase(t, all[i].hash) == Some(stored[i].tx.base);
      assert t.txIndices[all[i].hash].txId != t.txIndices[all[n].hash].txId;
      DeleteFind(t.txsPruned, id, t.txIndices[stored[i].hash].txId);
    }
    forall i, j | 0 <= i < j < n ensures u.txIndices[stored[i].hash].txId != u.txIndices[stored[j].hash].txId {
      assert all[i] == stored[i] && all[j] == stored[j];
      assert FindBase(u, stored[i].hash).Some? && FindBase(u, stored[j].hash).Some?;
    }
  }

  /** remove_transaction of the last listed transaction: the others stay listed, and a trace remains one. */
  lemma RemovedSound(h: Hashing, s: State, st: Stored, stored: seq<Stored>, after: State)
    requires Sound(h, s, stored + [st]) && RemoveTransaction(h, s, st.hash) == Success(after)
    ensures Sound(h, after, stored) && after.chain == s.chain
    ensures Traced(h, s, stored + [st]) ==> Traced(h, after, stored)
  {
    hide Find, Delete, Unspend, RemoveTransaction, StoredImages;
    RemovedTables(h, s, st.hash, after);
    var all, n := stored + [st], |stored|;
    assert all[n] == st && FindBase(s.txs, all[n].hash) == Some(st.tx.base);
    FindableRemoved(s.txs, after.txs, st, stored);
    UnspendKeeps(h, s.spentKeys, st, stored);
    if Traced(h, s, all) {
      if hash :| hash in s.txs.txIndices && NotListed(all, hash) {
        assert all[n].hash != hash;
        assert forall i :: 0 <= i < n ==> all[i] == stored[i];
        assert hash in after.txs.txIndices && NotListed(stored, hash);
      } else {
        var k :| k in s.spentKeys && k !in StoredImages(h, all);
        assert k in after.spentKeys;
      }
    }
  }

  // ----- The transactions of a block -----

  lemma {:induction false} AllAddedSound(h: Hashing, s: State, txs: seq<Transaction>, hashes: seq<Hash>, i: nat, stored: seq<Stored>, height: nat)
    requires i <= |txs| == |hashes| && Sound(h, s, stored) && AddTransactions(h, s, txs, hashes, i).Success?
    ensures var after := AddTransactions(h, s, txs, hashes, i).value;
            var all := stored + StoredFrom(txs, hashes, i, height);
            after.chain == s.chain && Sound(h, after, all) && (Traced(h, s, stored) ==> Traced(h, after, all))
    decreases |txs| - i
  {
    hide AddTransaction, Sound, Traced;
    var rest := StoredFrom(txs, hashes, i, height);
    if i == |txs| {
      assert stored + rest == stored;
    } else {
      var next, st := AddTransaction(h, s, txs[i], hashes[i]).value, Stored(txs[i], hashes[i], height);
      AddTransactionGrows(h, s, txs[i], hashes[i]);
      AddedSound(h, s, txs[i], hashes[i], stored, next, height);
      AllAddedSound(h, next, txs, hashes, i + 1, stored + [st], height);
      assert stored + rest == stored + [st] + StoredFrom(txs, hashes, i + 1, height);
    }
  }

  /** Transactions added on the way to a failure stay unlisted. */
  lemma {:induction false} AllLeftSound(h: Hashing, s: State, txs: seq<Transaction>, hashes: seq<Hash>, i: nat, stored: seq<Stored>)
    requires i <= |txs| == |hashes| && Sound(h, s, stored) && Traced(h, s, stored)
    ensures var left := AddTransactionsLeft(h, s, txs, hashes, i);
            left.chain == s.chain && Sound(h, left, stored) && Traced(h, left, stored)
    ensures AddTransactions(h, s, txs, hashes, i).Success? ==>
              var after := AddTransactions(h, s, txs, hashes, i).value;
              after.chain == s.chain && Sound(h, after, stored) && Traced(h, after, stored)
    decreases |txs| - i
  {
    hide AddTransaction, AddTransactionLeft, Sound, Traced;
    if i < |txs| {
      var next := AddTransaction(h, s, txs[i], hashes[i]);
      AddTransactionGrows(h, s, txs[i], hashes[i]);
      LeftSound(h, s, txs[i], hashes[i], stored);
      if next.Success? {
        Unlisted(h, s, txs[i], hashes[i], stored, next.value);
        AllLeftSound(h, next.value, txs, hashes, i + 1, stored);
      }
    }
  }

  /** A transaction that is added but not listed is itself a trace. */
  lemma Unlisted(h: Hashing, s: State, tx: Transaction, hash: Hash, stored: seq<Stored>, after: State)
    requires Sound(h, s, stored) && AddTransaction(h, s, tx, hash) == Success(after)
    ensures Sound(h, after, stored) && Traced(h, after, stored)
  {
    hide AddTransaction, Findable, StoredImages, NotListed;
    AddedSound(h, s, tx, hash, stored, after, 0);
    FindablePrefix(after.txs, stored, Stored(tx, hash, 0));
    KeysPrefix(h, after.spentKeys, stored, Stored(tx, hash, 0));
  }

  lemma KeysPrefix(h: Hashing, keys: set<KeyImage>, stored: seq<Stored>, st: Stored)
    requires KeysListed(h, keys, stored + [st])
    ensures KeysListed(h, keys, stored)
  {
    hide Images;
    assert (stored + [st])[..|stored|] == stored;
    var a, all := StoredImages(h, stored), StoredImages(h, stored + [st]);
    assert all == a + Images(h, st.tx.base.vin);
    assert forall i :: 0 <= i < |a| ==> a[i] == all[i] && all[i] in Elements(all);
  }

  lemma {:induction false} AllRemovedSound(h: Hashing, s: State, txs: seq<Transaction>, hashes: seq<Hash>, n: nat, popped: seq<Fetched>,
                                           stored: seq<Stored>, height: nat, after: State, all: seq<Fetched>)
    requires n <= |txs| == |hashes| && Sound(h, s, stored + StoredFrom(txs, hashes, 0, height)[..n])
    requires RemoveTransactions(h, s, hashes, n, popped) == Success((after, all))
    ensures after.chain == s.chain && Sound(h, after, stored)
    ensures Traced(h, s, stored + StoredFrom(txs, hashes, 0, height)[..n]) ==> Traced(h, after, stored)
    decreases n
  {
    hide RemoveTransaction, Sound, Traced, Fetch;
    var list := StoredFrom(txs, hashes, 0, height);
    if n == 0 {
      assert stored + list[..0] == stored;
    } else {
      var st := list[n - 1];
      assert stored + list[..n] == stored + list[..n - 1] + [st] && st.hash == hashes[n - 1];
      var rest := RemoveTransaction(h, s, hashes[n - 1]).value;
      RemovedSound(h, s, st, stored + list[..n - 1], rest);
      AllRemovedSound(h, rest, txs, hashes, n - 1, popped + [Fetch(s.txs, hashes[n - 1]).value], stored, height, after, all);
    }
  }

  // ----- The tables of blocks -----

  /** The tables of blocks hold the given blocks, and possibly rows without block info above them. */
  ghost predicate ChainFits(h: Hashing, b: ChainTables, entries: seq<Entry>) {
    |b.blockInfo| == |entries| <= |b.blocks| && ChainHolds(h, b.(blocks := b.blocks[..|entries|]), entries)
  }

  lemma ChainAdded(h: Hashing, b: ChainTables, e: Entry, entries: seq<Entry>, after: ChainTables)
    requires ChainFits(h, b, entries) && AddBlockData(h, b, e, BlockRctOuts(e)) == Success(after)
    ensures |b.blocks| == |entries| && ChainFits(h, after, entries + [e])
  {
    hide Find, BlockAt, BlockRctOuts;
    var n := |entries|;
    assert |b.blocks| == n by {
      assert e.block.prevId in b.blockHeights ==> b.blockHeights[e.block.prevId] < n;
    }
    assert b.blocks[..n] == b.blocks;
    assert b.(blocks := b.blocks[..n]) == b;
    ChainStillHolds(h, b, e, entries, after);
    assert |after.blocks| == n + 1 && after.blocks[..n + 1] == after.blocks;
  }

  lemma ChainLeft(h: Hashing, b: ChainTables, e: Entry, entries: seq<Entry>)
    requires ChainFits(h, b, entries)
    ensures ChainFits(h, AddBlockDataLeft(h, b, e), entries)
    ensures |AddBlockDataLeft(h, b, e).blocks| >= |b.blocks|
  {
    hide ChainHolds;
    var left, n := AddBlockDataLeft(h, b, e), |entries|;
    assert left.blocks[..n] == b.blocks[..n];
    assert left.(blocks := left.blocks[..n]) == b.(blocks := b.blocks[..n]);
  }

  lemma {:induction false} DeleteSize<V>(t: Table<V>, key: nat)
    requires Find(t, key).Some?
    ensures |Delete(t, key)| == |t| - 1
  {
    if t[|t| - 1].key != key {
      DeleteSize(t[..|t| - 1], key);
    }
  }

  lemma DeleteTop<V>(t: Table<V>)
    requires t != [] && Dense(t)
    ensures Find(t, |t| - 1) == Some(t[|t| - 1].value) && Delete(t, |t| - 1) == t[..|t| - 1]
  {
  }

  lemma RemoveBlockShrinks(b: ChainTables)
    ensures RemoveBlock(b).Success? ==> |RemoveBlock(b).value.0.blockInfo| == |b.blockInfo| - 1
  {
    hide Find, Delete;
    if RemoveBlock(b).Success? {
      DeleteSize(b.blockInfo, |b.blocks| - 1);
    }
  }

  lemma ChainDense(h: Hashing, b: ChainTables, entries: seq<Entry>)
    requires ChainHolds(h, b, entries)
    ensures Dense(b.blocks) && Dense(b.blockInfo)
  {
    hide CumulativeRct;
    forall i | 0 <= i < |entries| ensures b.blocks[i].key == i && b.blockInfo[i].key == i {
      assert BlockAt(h, b, entries, i);
    }
  }

  lemma ChainRemoved(h: Hashing, b: ChainTables, entries: seq<Entry>, after: ChainTables, block: Block)
    requires ChainFits(h, b, entries) && RemoveBlock(b) == Success((after, block))
    ensures entries != [] && |b.blocks| == |entries| && block == entries[|entries| - 1].block
    ensures ChainFits(h, after, entries[..|entries| - 1])
  {
    hide Find, Delete, CumulativeRct, BlockAt, ChainHolds;
    var n := |entries|;
    var fit := b.(blocks := b.blocks[..n]);
    ChainDense(h, fit, entries);
    FindDense(b.blockInfo, |b.blocks| - 1);
    assert b.blocks[..n] == b.blocks && fit == b;
    DeleteTop(b.blocks);
    DeleteTop(b.blockInfo);
    TopRemoved(h, b, entries, after);
  }

  lemma TopRemoved(h: Hashing, b: ChainTables, entries: seq<Entry>, after: ChainTables)
    requires entries != [] && ChainHolds(h, b, entries)
    requires var n := |entries| - 1;
             && after.blocks == b.blocks[..n] && after.blockInfo == b.blockInfo[..n]
             && after.blockHeights == b.blockHeights - {b.blockInfo[n].value.hash}
    ensures b.blocks[|entries| - 1].value == entries[|entries| - 1].block
    ensures ChainFits(h, after, entries[..|entries| - 1])
  {
    hide CumulativeRct;
    var n := |entries| - 1;
    var rest := entries[..n];
    assert BlockAt(h, b, entries, n);
    forall i | 0 <= i < n ensures BlockAt(h, after, rest, i) {
      assert BlockAt(h, b, entries, i);
      assert rest[..i + 1] == entries[..i + 1];
    }
    forall hash | hash in after.blockHeights
      ensures after.blockHeights[hash] < n && h.blockHash(rest[after.blockHeights[hash]].block) == hash
    {
      assert h.blockHash(entries[b.blockHeights[hash]].block) == hash;
    }
    assert after.blocks[..n] == after.blocks;
  }

  // ----- Transactions do not touch the tables of blocks -----

  lemma {:induction false} AddingKeepsChain(h: Hashing, s: State, txs: seq<Transaction>, hashes: seq<Hash>, i: nat)
    requires i <= |txs| == |hashes|
    ensures AddTransactionsLeft(h, s, txs, hashes, i).chain == s.chain
    ensures AddTransactions(h, s, txs, hashes, i).Success? ==> AddTransactions(h, s, txs, hashes, i).value.chain == s.chain
    decreases |txs| - i
  {
    hide AddTransaction, AddTransactionLeft;
    if i < |txs| {
      AddTransactionGrows(h, s, txs[i], hashes[i]);
      var next := AddTransaction(h, s, txs[i], hashes[i]);
      if next.Success? {
        AddingKeepsChain(h, next.value, txs, hashes, i + 1);
      }
    }
  }

  lemma RemovingOneKeepsChain(h: Hashing, s: State, hash: Hash)
    ensures RemoveTransactionLeft(h, s, hash).chain == s.chain
    ensures RemoveTransaction(h, s, hash).Success? ==> RemoveTransaction(h, s, hash).value.chain == s.chain
  {
    hide Find, Delete, Unspend, RemoveOutputs, RemoveOutputsLeft, RemoveBlobs, RemoveBlobsLeft;
  }

  lemma {:induction false} RemovingKeepsChain(h: Hashing, s: State, hashes: seq<Hash>, n: nat, popped: seq<Fetched>)
    requires n <= |hashes|
    ensures RemoveTransactionsLeft(h, s, hashes, n).chain == s.chain
    ensures RemoveTransactions(h, s, hashes, n, popped).Success? ==> RemoveTransactions(h, s, hashes, n, popped).value.0.chain == s.chain
    decreases n
  {
    hide RemoveTransaction, RemoveTransactionLeft, Fetch;
    if n > 0 && Fetch(s.txs, hashes[n - 1]).Some? {
      RemovingOneKeepsChain(h, s, hashes[n - 1]);
      var rest := RemoveTransaction(h, s, hashes[n - 1]);
      if rest.Success? {
        RemovingKeepsChain(h, rest.value, hashes, n - 1, popped + [Fetch(s.txs, hashes[n - 1]).value]);
      }
    }
  }

  /** The blocks with info after each call. */
  lemma InfoSizes(h: Hashing, s: State, e: Entry)
    ensures AddBlock(h, s, e).Success? ==> |AddBlock(h, s, e).value.chain.blockInfo| == |s.chain.blockInfo| + 1
    ensures |AddBlockLeft(h, s, e).chain.blockInfo| == |s.chain.blockInfo|
  {
    hide AddTransaction, AddTransactionLeft, AddTransactions, AddTransactionsLeft, Find;
    var minerHash := h.txHash(e.block.minerTx);
    AddTransactionGrows(h, s, e.block.minerTx, minerHash);
    if |e.block.txHashes| == |e.txs| && AddTransaction(h, s, e.block.minerTx, minerHash).Success? {
      AddingKeepsChain(h, AddTransaction(h, s, e.block.minerTx, minerHash).value, e.txs, e.block.txHashes, 0);
    }
  }

  lemma PopInfoSizes(h: Hashing, s: State)
    ensures PopBlock(h, s).Success? ==>
              && |PopBlock(h, s).value.state.chain.blockInfo| == |s.chain.blockInfo| - 1
              && RemoveBlock(s.chain).Success?
    ensures PopBlockLeft(h, s) == s || |PopBlockLeft(h, s).chain.blockInfo| == |s.chain.blockInfo| - 1
  {
    hide RemoveBlock, RemoveTransaction, RemoveTransactionLeft, RemoveTransactions, RemoveTransactionsLeft;
    RemoveBlockShrinks(s.chain);
    var top := RemoveBlock(s.chain);
    if top.Success? {
      var (chain, block) := top.value;
      var rest := RemoveTransactions(h, s.(chain := chain), block.txHashes, |block.txHashes|, []);
      RemovingKeepsChain(h, s.(chain := chain), block.txHashes, |block.txHashes|, []);
      if rest.Success? {
        RemovingOneKeepsChain(h, rest.value.0, h.txHash(block.minerTx));
      }
    }
  }

  // ----- Blocks -----

  ghost predicate Structured(h: Hashing, s: State, entries: seq<Entry>) {
    Matched(entries) && ChainFits(h, s.chain, entries) && Sound(h, s, StoredOf(h, entries))
  }

  /** The tables carry a trace: fewer blocks with info than should be, or something of no listed block. */
  ghost predicate Spoilt(h: Hashing, s: State, entries: seq<Entry>) {
    || |s.chain.blockInfo| < |entries|
    || (Structured(h, s, entries) && (Traced(h, s, StoredOf(h, entries)) || |s.chain.blocks| > |entries|))
  }

  lemma ReplayStructured(h: Hashing, s: State, entries: seq<Entry>)
    requires Replay(h, entries) == Success(s)
    ensures Structured(h, s, entries)
  {
    hide Replay, ChainHolds, CountsHold, StoredOf, StoredImages, Find;
    ReplayHolds(h, entries);
    ChainLength(h, s.chain, entries);
    InfoLength(h, s.chain, entries);
    assert s.chain.blocks[..|entries|] == s.chain.blocks && s.chain.(blocks := s.chain.blocks) == s.chain;
    var stored := StoredOf(h, entries);
    forall i | 0 <= i < |stored|
      ensures s.txs.txsPruned[i].key == i && stored[i].hash in s.txs.txIndices && s.txs.txIndices[stored[i].hash].txId == i
      ensures s.txs.txsPruned[i].value == stored[i].tx.base
    {
      assert Recorded(h, s.txs, s.outs, stored[i], i);
    }
    forall i | 0 <= i < |stored| ensures FindBase(s.txs, stored[i].hash) == Some(stored[i].tx.base) {
      FindDense(s.txs.txsPruned, i);
    }
  }

  lemma InfoLength(h: Hashing, b: ChainTables, entries: seq<Entry>)
    requires ChainHolds(h, b, entries)
    ensures |b.blockInfo| == |entries|
  {
  }

  /** Spoilt tables are not those of the listed blocks. */
  lemma SpoiltIsNoReplay(h: Hashing, s: State, entries: seq<Entry>)
    requires Spoilt(h, s, entries)
    ensures Replay(h, entries) != Success(s)
  {
    hide Replay, ChainHolds, CountsHold, StoredOf, StoredImages, Sound, ChainFits;
    if Replay(h, entries) == Success(s) {
      ReplayHolds(h, entries);
      ChainLength(h, s.chain, entries);
      InfoLength(h, s.chain, entries);
      NothingTraced(h, s, StoredOf(h, entries));
    }
  }

  lemma NothingTraced(h: Hashing, s: State, stored: seq<Stored>)
    requires TablesHold(h, s.txs, s.outs, stored) && KeysHold(h, s.spentKeys, stored)
    ensures !Traced(h, s, stored)
  {
    hide Recorded, DenseOutputs, StoredImages;
    assert forall k :: k in Elements(StoredImages(h, stored)) ==> k in StoredImages(h, stored);
  }

  lemma {:induction false} StoredOneMore(h: Hashing, entries: seq<Entry>, e: Entry)
    requires Matched(entries) && |e.txs| == |e.block.txHashes|
    ensures Matched(entries + [e])
    ensures var miner := Stored(e.block.minerTx, h.txHash(e.block.minerTx), |entries|);
            StoredOf(h, entries + [e]) == StoredOf(h, entries) + [miner] + StoredFrom(e.txs, e.block.txHashes, 0, |entries|)
  {
    assert (entries + [e])[..|entries|] == entries;
  }

  /** An add_block that returns keeps the tables spoilt. */
  lemma AddedSpoilt(h: Hashing, s: State, e: Entry, entries: seq<Entry>, after: State)
    requires Spoilt(h, s, entries) && AddBlock(h, s, e) == Success(after)
    ensures Spoilt(h, after, entries + [e])
  {
    hide AddBlock, AddTransaction, AddTransactions, AddBlockData, Sound, Traced, ChainFits, StoredOf, StoredFrom;
    InfoSizes(h, s, e);
    if |s.chain.blockInfo| >= |entries| {
      var n, minerHash := |entries|, h.txHash(e.block.minerTx);
      var coinbase, all := AddBlockSteps(h, s, e, after);
      var stored, miner := StoredOf(h, entries), Stored(e.block.minerTx, minerHash, n);
      AddTransactionGrows(h, s, e.block.minerTx, minerHash);
      AddedSound(h, s, e.block.minerTx, minerHash, stored, coinbase, n);
      AllAddedSound(h, coinbase, e.txs, e.block.txHashes, 0, stored + [miner], n);
      ChainAdded(h, s.chain, e, entries, after.chain);
      StoredOneMore(h, entries, e);
      SameTransactions(h, all, after, StoredOf(h, entries + [e]));
    }
  }

  lemma SameTransactions(h: Hashing, s: State, t: State, stored: seq<Stored>)
    requires t == s.(chain := t.chain)
    ensures Sound(h, s, stored) ==> Sound(h, t, stored)
    ensures Traced(h, s, stored) ==> Traced(h, t, stored)
  {
    hide Findable, KeysListed, NotListed, StoredImages;
  }

  /** An add_block that throws keeps the tables spoilt, and spoils them unless it is untouched. */
  lemma LeftSpoilt(h: Hashing, s: State, e: Entry, entries: seq<Entry>)
    requires AddBlock(h, s, e).Failure?
    requires Spoilt(h, s, entries) || (Structured(h, s, entries) && !Untouched(h, s, e))
    ensures Spoilt(h, AddBlockLeft(h, s, e), entries)
  {
    hide AddBlock, AddTransaction, AddTransactionLeft, AddTransactions, AddTransactionsLeft, AddBlockDataLeft, Untouched;
    hide Sound, Traced, ChainFits, StoredOf;
    InfoSizes(h, s, e);
    FailedAddUntouched(h, s, e);
    var left, minerHash := AddBlockLeft(h, s, e), h.txHash(e.block.minerTx);
    if |s.chain.blockInfo| >= |entries| && left != s {
      var stored, coinbase := StoredOf(h, entries), AddTransaction(h, s, e.block.minerTx, minerHash);
      AddTransactionGrows(h, s, e.block.minerTx, minerHash);
      if coinbase.Failure? {
        LeftSound(h, s, e.block.minerTx, minerHash, stored);
      } else {
        Unlisted(h, s, e.block.minerTx, minerHash, stored, coinbase.value);
        AllLeftSound(h, coinbase.value, e.txs, e.block.txHashes, 0, stored);
        ChainLeft(h, s.chain, e, entries);
        var all := AddTransactions(h, coinbase.value, e.txs, e.block.txHashes, 0);
        if all.Success? {
          SameTransactions(h, all.value, left, stored);
        }
      }
    }
  }

  /** A pop_block that returns keeps the tables spoilt, and never runs past the listed blocks. */
  lemma PoppedSpoilt(h: Hashing, s: State, entries: seq<Entry>, p: Popped)
    requires Spoilt(h, s, entries) && PopBlock(h, s) == Success(p)
    ensures entries != [] && Spoilt(h, p.state, entries[..|entries| - 1])
  {
    hide PopBlock, RemoveBlock, Sound, Traced, ChainFits, StoredOf;
    PopInfoSizes(h, s);
    if |s.chain.blockInfo| >= |entries| {
      var (chain, block) := RemoveBlock(s.chain).value;
      ChainRemoved(h, s.chain, entries, chain, block);
      BlockRemoved(h, s, entries, p);
    }
  }

  lemma BlockRemoved(h: Hashing, s: State, entries: seq<Entry>, p: Popped)
    requires entries != [] && Structured(h, s, entries) && Traced(h, s, StoredOf(h, entries)) && PopBlock(h, s) == Success(p)
    requires RemoveBlock(s.chain).Success? && RemoveBlock(s.chain).value.1 == entries[|entries| - 1].block
    ensures Matched(entries[..|entries| - 1])
    ensures var stored := StoredOf(h, entries[..|entries| - 1]);
            p.state.chain == RemoveBlock(s.chain).value.0 && Sound(h, p.state, stored) && Traced(h, p.state, stored)
  {
    hide RemoveBlock, RemoveTransaction, RemoveTransactions, Sound, Traced, ChainFits, StoredOf, StoredFrom;
    var n := |entries| - 1;
    var rest, e := entries[..n], entries[n];
    var (chain, block) := RemoveBlock(s.chain).value;
    StoredOneMore(h, rest, e);
    assert rest + [e] == entries;
    var miner, list := Stored(e.block.minerTx, h.txHash(e.block.minerTx), n), StoredFrom(e.txs, e.block.txHashes, 0, n);
    var cut := s.(chain := chain);
    SameTransactions(h, s, cut, StoredOf(h, entries));
    assert list[..|e.txs|] == list;
    var r := RemoveTransactions(h, cut, block.txHashes, |block.txHashes|, []).value;
    AllRemovedSound(h, cut, e.txs, e.block.txHashes, |e.txs|, [], StoredOf(h, rest) + [miner], n, r.0, r.1);
    RemovedSound(h, r.0, miner, StoredOf(h, rest), p.state);
  }

  /** A pop_block that throws keeps the tables spoilt. */
  lemma PopLeftSpoilt(h: Hashing, s: State, entries: seq<Entry>)
    requires Spoilt(h, s, entries)
    ensures Spoilt(h, PopBlockLeft(h, s), entries)
  {
    hide PopBlockLeft, Sound, Traced, StoredOf;
    PopInfoSizes(h, s);
  }

  // ----- Runs -----

  ghost predicate Tells(h: Hashing, s: State, entries: seq<Entry>, clean: bool) {
    if clean then Replay(h, entries) == Success(s) else Spoilt(h, s, entries)
  }

  ghost predicate TellsAll(h: Hashing, x: Session, t: Track) {
    && (x.saved.Some? <==> t.start.Some?)
    && Tells(h, x.tables, t.survivors, t.clean)
    && (t.start.Some? ==> Tells(h, x.saved.value, t.start.value.0, t.start.value.1))
  }

  lemma AddTells(h: Hashing, s: State, entries: seq<Entry>, clean: bool, e: Entry)
    requires Tells(h, s, entries, clean)
    ensures var r := AddBlock(h, s, e);
            if r.Success? then Tells(h, r.value, entries + [e], clean)
            else Tells(h, AddBlockLeft(h, s, e), entries, clean && Untouched(h, s, e))
  {
    hide AddBlock, AddBlockLeft, Untouched, Replay, Spoilt, Structured;
    if AddBlock(h, s, e).Failure? {
      if clean {
        ReplayStructured(h, s, entries);
        FailedAddUntouched(h, s, e);
      }
      if !clean || !Untouched(h, s, e) {
        LeftSpoilt(h, s, e, entries);
      }
    } else if clean {
      ReplayOneMore(h, entries, e);
    } else {
      AddedSpoilt(h, s, e, entries, AddBlock(h, s, e).value);
    }
  }

  lemma PopTells(h: Hashing, s: State, entries: seq<Entry>, clean: bool)
    requires Tells(h, s, entries, clean)
    ensures var r := PopBlock(h, s);
            if r.Success? then entries != [] && Tells(h, r.value.state, entries[..|entries| - 1], clean)
            else Tells(h, PopBlockLeft(h, s), entries, clean)
  {
    hide PopBlock, PopBlockLeft, Replay, Spoilt;
    if clean {
      PopReplayed(h, entries);
      if entries == [] {
        NothingToPop(h, s);
      }
    } else if PopBlock(h, s).Success? {
      PoppedSpoilt(h, s, entries, PopBlock(h, s).value);
    } else {
      PopLeftSpoilt(h, s, entries);
    }
  }

  lemma {:induction false} RunTells(h: Hashing, calls: seq<Call>)
    ensures TellsAll(h, Run(h, calls), Tracked(h, calls))
  {
    hide Tells, AddBlock, AddBlockLeft, PopBlock, PopBlockLeft, Untouched;
    if calls == [] {
      assert Tells(h, EMPTY, [], true) by { NothingTold(h); }
    } else {
      var before, call := calls[..|calls| - 1], calls[|calls| - 1];
      RunTells(h, before);
      var x, t := Run(h, before), Tracked(h, before);
      match call
      case Add(e) => AddTells(h, x.tables, t.survivors, t.clean, e);
      case Pop(_) => PopTells(h, x.tables, t.survivors, t.clean);
      case BatchStart(_) =>
      case BatchStop(_) =>
      case BatchAbort =>
    }
  }

  lemma NothingTold(h: Hashing)
    ensures Tells(h, EMPTY, [], true)
  {
  }

  /**
   * After any run, with or without failed calls, the tables are those of adding the surviving blocks
   * in order if and only if every failed add_block that wrote something was in a batch dropped since.
   */
  lemma ReplayIsClean(h: Hashing, calls: seq<Call>)
    ensures Replay(h, Surviving(h, calls)) == Success(Run(h, calls).tables) <==> Clean(h, calls)
  {
    hide Run, Tracked, Replay, Spoilt;
    RunTells(h, calls);
    if !Clean(h, calls) {
      SpoiltIsNoReplay(h, Run(h, calls).tables, Surviving(h, calls));
    }
  }
}
