/** The spent keys, stated on the inputs themselves: what each input of a surviving transaction leaves behind. */
module SpentInputs {
  import opened Outcomes
  import opened Ledger
  import opened Reorganization
  import opened WriteBatches
  import opened LedgerInvariants
  import opened ReachableStates
  import opened Acceptance

  /** The input spends the key image: its own, or for a post-quantum input the one derived from its output key. */
  ghost predicate Spends(h: Hashing, input: Input, image: KeyImage) {
    || input == ToKey(image)
    || (input.ToKeyPq? && h.pqKeyImage(input.realOutputKey) == image)
  }

  /** Input k of transaction i spends the key image. */
  ghost predicate SpentAt(h: Hashing, stored: seq<Stored>, i: int, k: int, image: KeyImage) {
    0 <= i < |stored| && 0 <= k < |stored[i].tx.base.vin| && Spends(h, stored[i].tx.base.vin[k], image)
  }

  /** No two inputs of the list spend the same key image. */
  ghost predicate AllDiffer(h: Hashing, vin: seq<Input>) {
    forall k, l, image :: 0 <= k < l < |vin| && Spends(h, vin[k], image) ==> !Spends(h, vin[l], image)
  }

  /** No two inputs of the transactions spend the same key image. */
  ghost predicate NoDoubleSpend(h: Hashing, stored: seq<Stored>) {
    forall i, k, j, l, image :: SpentAt(h, stored, i, k, image) && SpentAt(h, stored, j, l, image) ==> i == j && k == l
  }

  // ----- One transaction -----

  lemma {:induction false} ImagesAreSpent(h: Hashing, vin: seq<Input>, image: KeyImage)
    ensures image in Images(h, vin) <==> exists k :: 0 <= k < |vin| && Spends(h, vin[k], image)
  {
    if vin != [] {
      ImagesAreSpent(h, vin[1..], image);
      assert image in Images(h, vin) <==> Spends(h, vin[0], image) || image in Images(h, vin[1..]);
      assert forall k :: 0 < k < |vin| ==> vin[k] == vin[1..][k - 1];
      if image in Images(h, vin[1..]) {
        var k :| 0 <= k < |vin[1..]| && Spends(h, vin[1..][k], image);
        assert Spends(h, vin[k + 1], image);
      }
    }
  }

  lemma {:induction false} ImagesDiffer(h: Hashing, vin: seq<Input>)
    ensures Distinct(Images(h, vin)) <==> AllDiffer(h, vin)
  {
    if vin != [] {
      var tail, image := Images(h, vin[1..]), ImageOf(h, vin[0]);
      ImagesDiffer(h, vin[1..]);
      assert forall k :: 0 < k < |vin| ==> vin[k] == vin[1..][k - 1];
      if image.None? {
        assert Images(h, vin) == tail;
      } else {
        ImagesAreSpent(h, vin[1..], image.value);
        assert Images(h, vin)[0] == image.value && Images(h, vin)[1..] == tail;
        assert Distinct(Images(h, vin)) <==> Distinct(tail) && image.value !in tail;
      }
    }
  }

  // ----- All transactions -----

  lemma {:induction false} StoredAreSpent(h: Hashing, stored: seq<Stored>, image: KeyImage)
    ensures image in StoredImages(h, stored) <==> exists i, k :: SpentAt(h, stored, i, k, image)
  {
    hide Images, Spends;
    if stored != [] {
      var n := |stored| - 1;
      StoredAreSpent(h, stored[..n], image);
      ImagesAreSpent(h, stored[n].tx.base.vin, image);
      assert forall i, k :: i < n ==> SpentAt(h, stored, i, k, image) == SpentAt(h, stored[..n], i, k, image);
      if image in Images(h, stored[n].tx.base.vin) {
        var k :| 0 <= k < |stored[n].tx.base.vin| && Spends(h, stored[n].tx.base.vin[k], image);
        assert SpentAt(h, stored, n, k, image);
      }
    }
  }

  lemma {:induction false} StoredDiffer(h: Hashing, stored: seq<Stored>)
    ensures Distinct(StoredImages(h, stored)) <==> NoDoubleSpend(h, stored)
  {
    hide Images, Spends, Distinct, AllDiffer, NoDoubleSpend;
    if stored == [] {
      NothingSpent(h);
    } else {
      var n := |stored| - 1;
      var vin := stored[n].tx.base.vin;
      StoredDiffer(h, stored[..n]);
      ImagesDiffer(h, vin);
      DistinctConcat(StoredImages(h, stored[..n]), Images(h, vin));
      forall image ensures image in StoredImages(h, stored[..n]) <==> exists i, k :: SpentAt(h, stored[..n], i, k, image) {
        StoredAreSpent(h, stored[..n], image);
      }
      forall image ensures image in Images(h, vin) <==> exists k :: 0 <= k < |vin| && Spends(h, vin[k], image) {
        ImagesAreSpent(h, vin, image);
      }
      OneMoreSpends(h, stored, stored[..n], vin, StoredImages(h, stored[..n]), Images(h, vin));
    }
  }

  lemma NothingSpent(h: Hashing)
    ensures Distinct(StoredImages(h, [])) && NoDoubleSpend(h, [])
  {
  }

  lemma {:induction false} OneMoreSpends(h: Hashing, stored: seq<Stored>, init: seq<Stored>, vin: seq<Input>,
                                         before: seq<KeyImage>, last: seq<KeyImage>)
    requires stored != [] && init == stored[..|stored| - 1] && vin == stored[|stored| - 1].tx.base.vin
    requires forall image :: image in before <==> exists i, k :: SpentAt(h, init, i, k, image)
    requires forall image :: image in last <==> exists k :: 0 <= k < |vin| && Spends(h, vin[k], image)
    ensures NoDoubleSpend(h, stored) <==> NoDoubleSpend(h, init) && AllDiffer(h, vin) && Elements(before) !! Elements(last)
  {
    hide Spends;
    var n := |init|;
    assert forall i, k, image :: i < n ==> SpentAt(h, stored, i, k, image) == SpentAt(h, init, i, k, image);
    assert forall k, image :: SpentAt(h, stored, n, k, image) <==> 0 <= k < |vin| && Spends(h, vin[k], image);
    if NoDoubleSpend(h, stored) {
      forall image | image in before ensures image !in last {
        var i, k :| SpentAt(h, init, i, k, image);
        assert SpentAt(h, stored, i, k, image);
      }
      forall k, l, image | 0 <= k < l < |vin| && Spends(h, vin[k], image) ensures !Spends(h, vin[l], image) {
        assert SpentAt(h, stored, n, k, image);
      }
      forall i, k, j, l, image | SpentAt(h, init, i, k, image) && SpentAt(h, init, j, l, image)
        ensures i == j && k == l
      {
        assert SpentAt(h, stored, i, k, image) && SpentAt(h, stored, j, l, image);
      }
    }
    if NoDoubleSpend(h, init) && AllDiffer(h, vin) && Elements(before) !! Elements(last) {
      forall i, k, j, l, image | SpentAt(h, stored, i, k, image) && SpentAt(h, stored, j, l, image)
        ensures i == j && k == l
      {
        assert i < n ==> image in Elements(before);
        assert j < n ==> image in Elements(before);
        assert i == n ==> image in Elements(last);
        assert j == n ==> image in Elements(last);
      }
    }
  }

  // ----- The main results -----

  /**
   * After every clean run each ToKey input of a surviving transaction has its key image among the spent
   * keys and each post-quantum input the image derived from its output key, and every spent key comes
   * from exactly one such input.
   */
  lemma SpentKeysByInput(h: Hashing, calls: seq<Call>)
    requires Clean(h, calls)
    ensures Matched(Surviving(h, calls))
    ensures var keys, stored := Run(h, calls).tables.spentKeys, StoredOf(h, Surviving(h, calls));
            && (forall i, k :: 0 <= i < |stored| && 0 <= k < |stored[i].tx.base.vin| && stored[i].tx.base.vin[k].ToKey? ==>
                  stored[i].tx.base.vin[k].keyImage in keys)
            && (forall i, k :: 0 <= i < |stored| && 0 <= k < |stored[i].tx.base.vin| && stored[i].tx.base.vin[k].ToKeyPq? ==>
                  h.pqKeyImage(stored[i].tx.base.vin[k].realOutputKey) in keys)
            && (forall image :: image in keys ==> exists i, k :: SpentAt(h, stored, i, k, image))
            && NoDoubleSpend(h, stored)
  {
    hide Run, Surviving, StoredOf, Distinct, NoDoubleSpend, StoredImages;
    SpentKeysInvariant(h, calls);
    var keys, stored := Run(h, calls).tables.spentKeys, StoredOf(h, Surviving(h, calls));
    StoredDiffer(h, stored);
    forall image ensures image in keys <==> exists i, k :: SpentAt(h, stored, i, k, image) {
      StoredAreSpent(h, stored, image);
    }
    forall i, k, image | SpentAt(h, stored, i, k, image) ensures image in keys {
    }
    forall i, k | 0 <= i < |stored| && 0 <= k < |stored[i].tx.base.vin|
      ensures stored[i].tx.base.vin[k].ToKey? ==> stored[i].tx.base.vin[k].keyImage in keys
      ensures stored[i].tx.base.vin[k].ToKeyPq? ==> h.pqKeyImage(stored[i].tx.base.vin[k].realOutputKey) in keys
    {
      var input := stored[i].tx.base.vin[k];
      if input.ToKey? {
        assert SpentAt(h, stored, i, k, input.keyImage);
      } else if input.ToKeyPq? {
        assert SpentAt(h, stored, i, k, h.pqKeyImage(input.realOutputKey));
      }
    }
  }

  /** add_block fails on every block with an input whose key image is already spent. */
  lemma SpentImageIsRefused(h: Hashing, calls: seq<Call>, e: Entry, tx: Transaction, k: nat, image: KeyImage)
    requires Clean(h, calls) && (tx == e.block.minerTx || tx in e.txs)
    requires k < |tx.base.vin| && Spends(h, tx.base.vin[k], image) && image in Run(h, calls).tables.spentKeys
    ensures AddBlock(h, Run(h, calls).tables, e).Failure?
  {
    hide Run, Surviving, StoredOf, AddBlock, NoDoubleSpend, StoredImages, Spends, Distinct, Continues;
    SpentKeysByInput(h, calls);
    AddSucceeds(h, calls, e);
    var stored := StoredOf(h, Surviving(h, calls));
    if |e.txs| == |e.block.txHashes| {
      var new' := StoredOfBlock(h, e, |Surviving(h, calls)|);
      var all, n := stored + new', |stored|;
      StoredDiffer(h, all);
      var i, l :| SpentAt(h, stored, i, l, image);
      assert SpentAt(h, all, i, l, image);
      var j := BlockPosition(h, e, |Surviving(h, calls)|, tx);
      assert all[n + j] == new'[j];
      assert SpentAt(h, all, n + j, k, image);
      TwiceSpent(h, all, i, l, n + j, k, image);
    }
  }

  lemma TwiceSpent(h: Hashing, stored: seq<Stored>, i: int, k: int, j: int, l: int, image: KeyImage)
    requires SpentAt(h, stored, i, k, image) && SpentAt(h, stored, j, l, image) && i != j
    ensures !NoDoubleSpend(h, stored)
  {
  }

  lemma BlockPosition(h: Hashing, e: Entry, height: nat, tx: Transaction) returns (j: nat)
    requires |e.txs| == |e.block.txHashes| && (tx == e.block.minerTx || tx in e.txs)
    ensures j < |StoredOfBlock(h, e, height)| && StoredOfBlock(h, e, height)[j].tx == tx
  {
    if tx == e.block.minerTx {
      j := 0;
    } else {
      var i :| 0 <= i < |e.txs| && e.txs[i] == tx;
      j := i + 1;
    }
  }
}
