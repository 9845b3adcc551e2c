/** Where the outputs of a transaction are found, told by the kinds of its inputs alone. */
module StoredOutputs {
  import opened Outcomes
  import opened KeyedTables
  import opened Ledger
  import opened Reorganization
  import opened WriteBatches
  import opened LedgerInvariants
  import opened ReachableStates
  import opened Acceptance
  import opened SpentInputs

  ghost predicate HasGen(vin: seq<Input>) {
    exists k :: 0 <= k < |vin| && vin[k].Gen?
  }

  ghost predicate HasPq(vin: seq<Input>) {
    exists k :: 0 <= k < |vin| && vin[k].ToKeyPq?
  }

  /** The index kept for output i of transaction id finds, under the amount, that very output with the commitment. */
  ghost predicate Found(s: State, st: Stored, id: nat, i: nat, amount: nat, commitment: Option<Key>)
    requires i < |st.tx.base.vout|
  {
    var tx, bucket := st.tx.base, Bucket(s.outs.outputAmounts, amount);
    && id < |s.txs.txOutputs| && s.txs.txOutputs[id].key == id && i < |s.txs.txOutputs[id].value|
    && var index := s.txs.txOutputs[id].value[i];
    && index < |bucket| && bucket[index].key == index
    && var record := bucket[index].value;
    && Some(record.pubkey) == tx.vout[i].target && record.unlockTime == tx.unlockTime && record.height == st.height
    && record.commitment == commitment
    && record.outputId < |s.outs.outputTxs| && s.outs.outputTxs[record.outputId] == Record(record.outputId, OutTx(st.hash, i))
  }

  /** The commitment of an output that is stored under its own amount: its mask, if RingCT hides the amount. */
  ghost predicate IsOwnCommitment(tx: TxBase, i: nat, commitment: Option<Key>)
    requires i < |tx.vout|
  {
    if tx.version > 1 && tx.vout[i].amount == 0 then i < |tx.outPk| && commitment == Some(tx.outPk[i]) else commitment == None
  }

  /** Output i is found under its own amount. */
  ghost predicate FoundUnderOwnAmount(s: State, st: Stored, id: nat, i: nat)
    requires i < |st.tx.base.vout|
  {
    exists c :: IsOwnCommitment(st.tx.base, i, c) && Found(s, st, id, i, st.tx.base.vout[i].amount, c)
  }

  /** Output i is found in bucket 0, with the commitment to its amount under the identity mask. */
  ghost predicate FoundAsPseudoRct(h: Hashing, s: State, st: Stored, id: nat, i: nat)
    requires i < |st.tx.base.vout|
  {
    Found(s, st, id, i, 0, Some(h.zeroCommit(st.tx.base.vout[i].amount)))
  }

  /** Every kind of transaction has its outputs where the source promises. */
  ghost predicate PlacedByKind(h: Hashing, s: State, st: Stored, id: nat, i: nat)
    requires i < |st.tx.base.vout|
  {
    var tx := st.tx.base;
    // a RingCT transaction, hybrids with post-quantum inputs included
    && (!HasGen(tx.vin) && tx.rctType != 0 ==> FoundUnderOwnAmount(s, st, id, i))
    // a transparent post-quantum spend
    && (HasPq(tx.vin) && tx.rctType == 0 ==> FoundAsPseudoRct(h, s, st, id, i))
    // a version-2 coinbase
    && (HasGen(tx.vin) && tx.version == 2 ==> FoundAsPseudoRct(h, s, st, id, i))
    // a transaction with classic inputs only
    && (!HasGen(tx.vin) && !HasPq(tx.vin) ==> FoundUnderOwnAmount(s, st, id, i))
    // a coinbase of another version
    && (HasGen(tx.vin) && tx.version != 2 && (!HasPq(tx.vin) || tx.rctType != 0) ==> FoundUnderOwnAmount(s, st, id, i))
  }

  lemma KindOfPlace(h: Hashing, s: State, st: Stored, id: nat, i: nat)
    requires i < |st.tx.base.vout| && Recorded(h, s.txs, s.outs, st, id) && StorableAt(st.tx.base, i)
    ensures PlacedByKind(h, s, st, id, i)
  {
    hide Bucket, Find;
    var tx := st.tx.base;
    assert OutputAt(h, s.outs, tx, st.hash, st.height, i, s.txs.txOutputs[id].value[i]);
    var c := CommitmentOf(h, tx, i);
    assert Found(s, st, id, i, BucketOf(tx, i), c);
    assert PseudoRct(tx) <==> (HasGen(tx.vin) && tx.version == 2) || (HasPq(tx.vin) && tx.rctType == 0);
    if !PseudoRct(tx) {
      assert IsOwnCommitment(tx, i, c);
    }
  }

  /**
   * After every clean run, every output of every surviving transaction is found where the kinds of the
   * transaction's inputs, its version and its RingCT type say.
   */
  lemma OutputsByKind(h: Hashing, calls: seq<Call>)
    requires Clean(h, calls)
    ensures Matched(Surviving(h, calls))
    ensures var s, stored := Run(h, calls).tables, StoredOf(h, Surviving(h, calls));
            forall id, i :: 0 <= id < |stored| && 0 <= i < |stored[id].tx.base.vout| ==> PlacedByKind(h, s, stored[id], id, i)
  {
    hide Run, Surviving, Replay, StoredOf, PlacedByKind, Recorded, StorableAt;
    RunIsReplay(h, calls);
    ReplayHolds(h, Surviving(h, calls));
    ReplayAcceptable(h, Surviving(h, calls));
    var s, stored := Run(h, calls).tables, StoredOf(h, Surviving(h, calls));
    forall id, i | 0 <= id < |stored| && 0 <= i < |stored[id].tx.base.vout| ensures PlacedByKind(h, s, stored[id], id, i) {
      assert Recorded(h, s.txs, s.outs, stored[id], id) && Storable(stored[id].tx.base);
      KindOfPlace(h, s, stored[id], id, i);
    }
  }

  // ----- Acceptance -----

  /** Output i can be stored: it has a key and, as a RingCT output, a mask. */
  ghost predicate HasParts(tx: TxBase, i: nat)
    requires i < |tx.vout|
  {
    && tx.vout[i].target.Some?
    && ((HasGen(tx.vin) && tx.version == 2) || (HasPq(tx.vin) && tx.rctType == 0)
        || if tx.version > 1 then i < |tx.outPk| else tx.vout[i].amount != 0)
  }

  /** Every input is of a known kind and every output can be stored. */
  ghost predicate WellFormed(tx: TxBase) {
    && (forall k :: 0 <= k < |tx.vin| ==> tx.vin[k].Gen? || tx.vin[k].ToKey? || tx.vin[k].ToKeyPq?)
    && (forall i :: 0 <= i < |tx.vout| ==> HasParts(tx, i))
  }

  lemma WellFormedIsStorable(tx: TxBase)
    ensures WellFormed(tx) <==> Supported(tx.vin) && Storable(tx)
  {
    assert PseudoRct(tx) <==> (HasGen(tx.vin) && tx.version == 2) || (HasPq(tx.vin) && tx.rctType == 0);
    hide PseudoRct, HasGen, HasPq;
    assert forall i :: 0 <= i < |tx.vout| ==> (HasParts(tx, i) <==> StorableAt(tx, i));
  }

  /**
   * After any clean run, add_block succeeds if and only if the block lists one hash per transaction, no two
   * inputs, old or new, spend the same key image, no hash occurs twice, all transactions are well formed,
   * and the block is new and follows the last surviving one.
   */
  lemma AddSucceedsByInput(h: Hashing, calls: seq<Call>, e: Entry)
    requires Clean(h, calls)
    ensures Matched(Surviving(h, calls))
    ensures var entries := Surviving(h, calls);
            AddBlock(h, Run(h, calls).tables, e).Success? <==>
            && |e.txs| == |e.block.txHashes|
            && (var all := StoredOf(h, entries) + StoredOfBlock(h, e, |entries|);
                NoDoubleSpend(h, all) && DistinctHashes(all) && forall i :: 0 <= i < |all| ==> WellFormed(all[i].tx.base))
            && Continues(h, entries, e)
  {
    hide Run, Surviving, StoredOf, AddBlock, NoDoubleSpend, DistinctHashes, Supported, Storable, WellFormed;
    hide Continues, StoredImages, Distinct;
    AddSucceeds(h, calls, e);
    if |e.txs| == |e.block.txHashes| {
      var all := StoredOf(h, Surviving(h, calls)) + StoredOfBlock(h, e, |Surviving(h, calls)|);
      StoredDiffer(h, all);
      forall i | 0 <= i < |all| ensures WellFormed(all[i].tx.base) <==> Supported(all[i].tx.base.vin) && Storable(all[i].tx.base) {
        WellFormedIsStorable(all[i].tx.base);
      }
    }
  }
}
