/** What a claim loses by being in one batch with its deposit or with the result it waits for. */
module AccountClaims {
  import opened Rollup
  import opened Util
  import DefiPayouts
  import opened BlockDecryption
  import opened BlockProcessing
  import opened AccountBatches

  /** The value a processed claim first pays: a refund, or the first output. */
  predicate Pays(txs: seq<ProcessedTx>, value: nat) {
    |txs| == 1 && |txs[0].outputNotes| > 0 && txs[0].outputNotes[0].Value() == value
  }

  lemma ClaimPays(k: Keys, account: nat, db: Db, b: Block, it: Item, index: nat, txs: seq<ProcessedTx>)
    requires it.proof.proofId == DEFI_CLAIM && ClaimsHaveDeposits(db)
    requires KnownClaim(account, db, it.proof.nullifier1).Some?
    ensures var record := KnownClaim(account, db, it.proof.nullifier1).value.1;
            var paid := ProcessItem(k, account, db, b, it, index, txs);
            && (!record.success ==> Pays(paid, record.depositValue))
            && (record.success && record.outputValueA > 0 ==> Pays(paid, record.outputValueA))
  {
    ClaimProcessed(k, account, db, b, it, index, txs);
    hide ClaimsHaveDeposits, KnownClaim, ProcessItem, OutputAssetId;
  }

  /**
   * A claim that comes later in a batch than a successful result of its interaction, the first the
   * account has of it, gives back the deposit; after that result has been applied it gives the output.
   */
  lemma ClaimBesideItsResultIsRefunded(k: Keys, account: nat, base: nat, next: nat, db: Db, seen: Seen,
                                       txs: seq<ProcessedTx>, after: Db, b: Block, it: Item, index: nat)
    requires Batch(k, account, base, next, db, seen, txs, after) && it.proof.proofId == DEFI_CLAIM
    requires it.proof.nullifier1 !in seen.made && KnownClaim(account, db, it.proof.nullifier1).Some?
    requires var (claim, record) := KnownClaim(account, db, it.proof.nullifier1).value;
             var last := LastResult(seen.results, claim.interactionNonce);
             && !record.success && last.Some? && last.value.result && last.value.totalInputValue > 0
             && DefiPayouts.Payout(last.value.totalOutputValueA, record.depositValue, last.value.totalInputValue) > 0
    ensures ClaimsHaveDeposits(db) && ClaimsHaveDeposits(after)
    ensures var (claim, record) := KnownClaim(account, db, it.proof.nullifier1).value;
            var event := LastResult(seen.results, claim.interactionNonce).value;
            && Pays(ProcessItem(k, account, db, b, it, index, txs), record.depositValue)
            && Pays(ProcessItem(k, account, after, b, it, index, []),
                    DefiPayouts.Payout(event.totalOutputValueA, record.depositValue, event.totalInputValue))
  {
    SoundHasDeposits(k, account, base, db);
    SoundHasDeposits(k, account, next, after);
    KnownClaims(account, k, base, next, db, seen, txs, after, it.proof.nullifier1);
    var (claim, record) := KnownClaim(account, db, it.proof.nullifier1).value;
    assert DefiPayouts.Payable(LastResult(seen.results, claim.interactionNonce).value);
    hide ProcessItem, Batch, Pays, DefiPayouts.Payout, KnownClaim, ClaimsHaveDeposits, LastResult;
    ClaimPays(k, account, db, b, it, index, txs);
    ClaimPays(k, account, after, b, it, index, []);
  }

  /** A claim whose deposit is earlier in its batch makes nothing, where alone it would be processed. */
  lemma ClaimBesideItsDepositIsMissed(k: Keys, account: nat, base: nat, next: nat, db: Db, seen: Seen,
                                      txs: seq<ProcessedTx>, after: Db, b: Block, it: Item, index: nat)
    requires Batch(k, account, base, next, db, seen, txs, after) && it.proof.proofId == DEFI_CLAIM
    requires it.proof.nullifier1 in seen.made && it.proof.nullifier1 !in db.claimTxs
    ensures ClaimsHaveDeposits(db) && ClaimsHaveDeposits(after)
    ensures ProcessItem(k, account, db, b, it, index, txs) == []
    ensures |ProcessItem(k, account, after, b, it, index, [])| == 1
  {
    SoundHasDeposits(k, account, base, db);
    SoundHasDeposits(k, account, next, after);
    MadeClaims(k, account, base, next, db, seen, txs, after, it.proof.nullifier1);
    ClaimProcessed(k, account, db, b, it, index, txs);
    ClaimProcessed(k, account, after, b, it, index, []);
    hide ProcessItem, Batch, DefiClaimTx, ClaimsHaveDeposits;
  }

  // ---- batches that can do no harm ----

  /** None of the blocks' claims is of a deposit of the account, in the database or in the blocks themselves. */
  ghost predicate OthersClaims(k: Keys, account: nat, db: Db, blocks: seq<Block>, made: set<nat>) {
    forall i, j | 0 <= i < |blocks| && 0 <= j < |blocks[i].innerProofData| ::
      OthersClaim(account, db, blocks[i].innerProofData[j], made)
  }

  ghost predicate OthersClaim(account: nat, db: Db, p: InnerProofData, made: set<nat>) {
    p.proofId == DEFI_CLAIM ==> KnownClaim(account, db, p.nullifier1).None? && p.nullifier1 !in made
  }

  lemma {:induction false} OthersInnersApart(k: Keys, account: nat, db: Db, seen: Seen, b: Block, n: nat,
                                             made: set<nat>)
    requires WellFormed(b) && n <= |b.innerProofData|
    requires forall j | 0 <= j < |b.innerProofData| :: OthersClaim(account, db, b.innerProofData[j], made)
    requires SeeInners(k, account, db, seen, b, n).made <= made
    ensures InnersApart(k, account, db, seen, b, n)
    ensures seen.made <= made && SeeInners(k, account, db, seen, b, n).claimed == seen.claimed
  {
    hide NotesOf, KnownClaim, WellFormed, NumTxs;
    if n > 0 {
      assert OthersClaim(account, db, b.innerProofData[n - 1], made);
      OthersInnersApart(k, account, db, seen, b, n - 1, made);
    }
  }

  /** Blocks with claims of others only can always be one batch. */
  lemma {:induction false} OthersClaimsApart(k: Keys, account: nat, db: Db, blocks: seq<Block>, made: set<nat>)
    requires AllWellFormed(blocks) && SeeBlocks(k, account, db, blocks).made <= made
    requires OthersClaims(k, account, db, blocks, made)
    ensures BatchApart(k, account, db, blocks)
    ensures SeeBlocks(k, account, db, blocks).claimed == {}
  {
    hide WellFormed, InnersApart, SeeInners, OthersClaim;
    if blocks != [] {
      var n := |blocks| - 1;
      var before := SeeBlocks(k, account, db, blocks[..n]);
      assert WellFormed(blocks[n]);
      OthersInnersApart(k, account, db, before, blocks[n], |blocks[n].innerProofData|, made);
      OthersClaimsApart(k, account, db, blocks[..n], made);
    }
  }
}
