/**
 * What each kind of proof gives an account, spelled out from the fields of the published proof, its
 * off-chain data and the stored record of a claim's deposit.
 */
module ProofEffects {
  import opened Rollup
  import opened Util
  import opened BlockDecryption
  import opened BlockProcessing

  /** There is one note behind a key at most, so recovering it finds that one. */
  lemma BehindIsUnique(k: Keys, a: Option<TreeNote>, b: Option<TreeNote>, key: Buffer, inputNullifier: nat, c: Buffer)
    requires IsBehind(k, a, key, inputNullifier, c) && IsBehind(k, b, key, inputNullifier, c)
    ensures a == b
  {
  }

  /** The nullifiers are those of the proof's two that are of notes the account has. */
  lemma DestroyedAre(account: nat, db: Db, txs: seq<ProcessedTx>, p: InnerProofData)
    ensures var has := (n: nat) => UserNoteOf(account, db, txs, n).Some?;
            Destroyed(account, db, txs, p) ==
            (if has(p.nullifier1) then [p.nullifier1] else []) + (if has(p.nullifier2) then [p.nullifier2] else [])
  {
    ProcessedHas(txs, p.nullifier1);
    ProcessedHas(txs, p.nullifier2);
  }

  lemma {:induction false} ProcessedHas(txs: seq<ProcessedTx>, n: nat)
    ensures var note := FindProcessed(txs, n); note.Some? ==> note.value.nullifier == n
  {
    if txs != [] {
      ProcessedHas(txs[1..], n);
    }
  }

  /**
   * A payment concerns the account if either of its notes is the account's. It gives the account
   * those notes, each at its own place, and takes those of the account's notes that it spends.
   */
  lemma PaymentGives(k: Keys, account: nat, db: Db, b: Block, it: Item, index: nat, txs: seq<ProcessedTx>,
                     note1: Option<TreeNote>, note2: Option<TreeNote>)
    requires ClaimsHaveDeposits(db)
    requires it.proof.proofId == DEPOSIT || it.proof.proofId == WITHDRAW || it.proof.proofId == SEND
    requires IsBehind(k, note1, k.viewingKeys(it.offchain).0, it.proof.nullifier1, it.proof.noteCommitment1)
    requires IsBehind(k, note2, k.viewingKeys(it.offchain).1, it.proof.nullifier2, it.proof.noteCommitment2)
    ensures var p, more := it.proof, ProcessItem(k, account, db, b, it, index, txs);
            var c1, c2 := p.noteCommitment1, p.noteCommitment2;
            if note1.None? && note2.None? then more == []
            else
              && |more| == 1 && more[0].proofId == p.proofId && more[0].claimTx.None? && more[0].defiTx.None?
              && more[0].nullifiers ==
                 (if UserNoteOf(account, db, txs, p.nullifier1).Some? then [p.nullifier1] else [])
                 + (if UserNoteOf(account, db, txs, p.nullifier2).Some? then [p.nullifier2] else [])
              && more[0].outputNotes ==
                 (if note1.Some? then [UserNote(note1.value, c1, k.valueNoteNullifier(c1), index)] else [])
                 + (if note2.Some? then [UserNote(note2.value, c2, k.valueNoteNullifier(c2), index + 1)] else [])
  {
    var p, notes := it.proof, NotesOf(k, it);
    NotesAreBehind(k, it);
    BehindIsUnique(k, note1, notes[0], k.viewingKeys(it.offchain).0, p.nullifier1, p.noteCommitment1);
    BehindIsUnique(k, note2, notes[1], k.viewingKeys(it.offchain).1, p.nullifier2, p.noteCommitment2);
    DestroyedAre(account, db, txs, p);
    hide NotesOf, IsBehind, Destroyed, UserNoteOf, FindDefi, ClaimsHaveDeposits;
  }

  /** The block has no result of the interaction, which is then asynchronous. */
  predicate NoResult(b: Block, nonce: int) {
    forall i | 0 <= i < |b.interactionResult| :: b.interactionResult[i].nonce != nonce
  }

  /** The first place of x in s, or -1 if it is not there. */
  ghost predicate FirstIn(s: seq<nat>, x: nat, place: int) {
    if place == -1 then x !in s
    else 0 <= place < |s| && s[place] == x && forall i | 0 <= i < place :: s[i] != x
  }

  /**
   * A DeFi deposit concerns the account if the change note is the account's. It gives the change,
   * takes the account's notes that it spends, and keeps what is needed to claim later: the nonce of
   * the interaction, which the block's list of bridge calls determines, and the secret.
   */
  lemma DepositGives(k: Keys, account: nat, db: Db, b: Block, it: Item, index: nat, txs: seq<ProcessedTx>,
                     change: Option<TreeNote>, call: int)
    requires ClaimsHaveDeposits(db) && it.proof.proofId == DEFI_DEPOSIT
    requires IsBehind(k, change, k.defiViewingKey(it.offchain), it.proof.nullifier2, it.proof.noteCommitment2)
    requires FirstIn(b.bridgeCallDatas, k.bridgeCallData(it.offchain).id, call)
    ensures var p, more, id := it.proof, ProcessItem(k, account, db, b, it, index, txs), k.txId(it.proof);
            var nonce := b.rollupId * 32 + call;
            if change.None? then more == []
            else
              && |more| == 1 && more[0].proofId == DEFI_DEPOSIT
              && more[0].nullifiers ==
                 (if UserNoteOf(account, db, txs, p.nullifier1).Some? then [p.nullifier1] else [])
                 + (if UserNoteOf(account, db, txs, p.nullifier2).Some? then [p.nullifier2] else [])
              && more[0].outputNotes ==
                 [UserNote(change.value, p.noteCommitment2, k.valueNoteNullifier(p.noteCommitment2), index + 1)]
              && more[0].claimTx ==
                 Some(ClaimTx(id, account, k.deriveNoteSecret(k.partialStateSecretKey(it.offchain)),
                              k.claimNoteNullifier(p.noteCommitment1), nonce))
              && more[0].defiTx ==
                 Some(DefiTx(id, account, k.bridgeCallData(it.offchain), k.depositValue(it.offchain), Some(nonce),
                             NoResult(b, nonce), false, 0, 0, false, false))
  {
    hide NotesOf, IsBehind, Destroyed, UserNoteOf, ProcessItem, InteractionNonce, ClaimsHaveDeposits, FirstIn,
         DefiDepositTx, NoResult;
    var p, notes := it.proof, NotesOf(k, it);
    NotesAreBehind(k, it);
    BehindIsUnique(k, change, notes[0], k.defiViewingKey(it.offchain), p.nullifier2, p.noteCommitment2);
    DestroyedAre(account, db, txs, p);
    NonceOfCall(b, k.bridgeCallData(it.offchain).id, call);
    DepositIs(k, account, db, b, it, index, txs);
    if change.Some? {
      DepositTxIs(k, account, db, txs, b, it, index, change.value);
    }
  }

  lemma DepositTxIs(k: Keys, account: nat, db: Db, txs: seq<ProcessedTx>, b: Block, it: Item, index: nat,
                    change: TreeNote)
    ensures var p, id, bridge := it.proof, k.txId(it.proof), k.bridgeCallData(it.offchain);
            var n2 := k.valueNoteNullifier(p.noteCommitment2);
            var secret := k.deriveNoteSecret(k.partialStateSecretKey(it.offchain));
            var nonce := InteractionNonce(b.rollupId, b.bridgeCallDatas, bridge.id);
            DefiDepositTx(k, account, db, txs, b, it, index, change, n2, secret) ==
            ProcessedTx(DEFI_DEPOSIT, Destroyed(account, db, txs, p),
                        [UserNote(change, p.noteCommitment2, n2, index + 1)],
                        Some(ClaimTx(id, account, secret, k.claimNoteNullifier(p.noteCommitment1), nonce)),
                        Some(DefiTx(id, account, bridge, k.depositValue(it.offchain), Some(nonce), NoResult(b, nonce),
                                    false, 0, 0, false, false)))
  {
    hide Destroyed, InteractionNonce;
  }

  lemma DepositIs(k: Keys, account: nat, db: Db, b: Block, it: Item, index: nat, txs: seq<ProcessedTx>)
    requires ClaimsHaveDeposits(db) && it.proof.proofId == DEFI_DEPOSIT
    ensures var p, notes, more := it.proof, NotesOf(k, it), ProcessItem(k, account, db, b, it, index, txs);
            if notes[0].None? then more == []
            else
              more == [DefiDepositTx(k, account, db, txs, b, it, index, notes[0].value,
                                     k.valueNoteNullifier(p.noteCommitment2),
                                     k.deriveNoteSecret(k.partialStateSecretKey(it.offchain)))]
  {
    hide NotesOf, DefiDepositTx, InteractionNonce, ClaimsHaveDeposits;
  }

  lemma NonceOfCall(b: Block, id: nat, call: int)
    requires FirstIn(b.bridgeCallDatas, id, call)
    ensures InteractionNonce(b.rollupId, b.bridgeCallDatas, id) == b.rollupId * 32 + call
  {
    var calls := b.bridgeCallDatas;
    var r := FindIndex(calls, id);
    assert forall i | 0 <= i < r :: calls[..r][i] == calls[i];
  }

  /**
   * A claim that the account has stored gives exactly what its deposit's record says. A successful
   * one gives the outputs that are not zero, A with the first commitment and nullifier and B with
   * the second, each in its own asset or, if that is virtual, in the interaction's; an unsuccessful
   * one gives the deposit back in every input asset. Nothing is spent, and the record is settled.
   */
  lemma ClaimGives(k: Keys, account: nat, db: Db, b: Block, it: Item, index: nat, txs: seq<ProcessedTx>)
    requires ClaimsHaveDeposits(db) && it.proof.proofId == DEFI_CLAIM && it.proof.nullifier1 in db.claimTxs
    requires db.claimTxs[it.proof.nullifier1].accountPublicKey == account
    ensures var p, more := it.proof, ProcessItem(k, account, db, b, it, index, txs);
            var claim := db.claimTxs[p.nullifier1];
            var record := FindDefi(db.defiTxs, claim.defiTxId).value;
            var bridge, virtual := record.bridge, 0x2000_0000 + claim.interactionNonce;
            var c1, c2 := p.noteCommitment1, p.noteCommitment2;
            var first := (value: nat, asset: int) =>
              UserNote(TreeNote(value, asset, claim.secret, p.nullifier1), c1, k.valueNoteNullifier(c1), index);
            var second := (value: nat, asset: int) =>
              UserNote(TreeNote(value, asset, claim.secret, p.nullifier2), c2, k.valueNoteNullifier(c2), index + 1);
            var assetA := if bridge.outputAssetIdA >= 0x2000_0000 then virtual else bridge.outputAssetIdA;
            var outputB := if bridge.outputAssetIdB.Some? then bridge.outputAssetIdB.value else 0;
            var assetB := if outputB >= 0x2000_0000 then virtual else outputB;
            && |more| == 1 && more[0].nullifiers == [] && more[0].claimTx.None?
            && more[0].defiTx == Some(record.(claimSettled := true))
            && var notes := more[0].outputNotes;
            && (record.success ==>
                  notes == (if record.outputValueA == 0 then [] else [first(record.outputValueA, assetA)])
                           + (if record.outputValueB == 0 then [] else [second(record.outputValueB, assetB)]))
            && (!record.success && record.outputValueA == 0 && record.outputValueB == 0 ==>
                  notes == [first(record.depositValue, bridge.inputAssetIdA)]
                           + match bridge.inputAssetIdB
                             case None => []
                             case Some(asset) => [second(record.depositValue, asset)])
  {
    hide ClaimsHaveDeposits, FindDefi, NotesOf;
  }
}
