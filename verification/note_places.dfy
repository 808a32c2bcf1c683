/** Where the notes are that an account makes of a rollup: at the leaves the rollup's replayers put them. */
module NotePlaces {
  import opened WorldStateStore
  import opened Rollup
  import RollupContents
  import RollupTrees
  import RollupAgreement
  import WorldStateSync
  import opened BlockDecryption
  import opened BlockProcessing
  import AccountBatches

  /** Every note a processed tx gives is in the tree at the index recorded for it. */
  ghost predicate InTree(data: Tree, tx: ProcessedTx) {
    forall i | 0 <= i < |tx.outputNotes| :: data.Get(tx.outputNotes[i].index) == tx.outputNotes[i].commitment
  }

  lemma ItemNotesInTree(k: Keys, account: nat, db: Db, b: Block, it: Item, index: nat, txs: seq<ProcessedTx>,
                        data: Tree)
    requires ClaimsHaveDeposits(db)
    requires data.Get(index) == it.proof.noteCommitment1 && data.Get(index + 1) == it.proof.noteCommitment2
    ensures forall tx | tx in ProcessItem(k, account, db, b, it, index, txs) :: InTree(data, tx)
  {
    hide ClaimsHaveDeposits, NotesOf, Destroyed, FindDefi, InteractionNonce, Tree.Get, OutputAssetId;
  }

  lemma {:induction false} InnerNotesInTree(k: Keys, account: nat, db: Db, b: Block, n: nat, txs: seq<ProcessedTx>,
                                            data: Tree)
    requires WellFormed(b) && n <= |b.innerProofData| && ClaimsHaveDeposits(db)
    requires forall s | 0 <= s < |b.innerProofData| ::
               && data.Get(b.dataStartIndex + 2 * s) == b.innerProofData[s].noteCommitment1
               && data.Get(b.dataStartIndex + 2 * s + 1) == b.innerProofData[s].noteCommitment2
    ensures txs <= ProcessInners(k, account, db, b, n, txs)
    ensures forall tx | tx in ProcessInners(k, account, db, b, n, txs)[|txs|..] :: InTree(data, tx)
  {
    hide WellFormed, ClaimsHaveDeposits, ProcessItem, InTree, Tree.Get, NumTxs;
    if n > 0 {
      InnerNotesInTree(k, account, db, b, n - 1, txs, data);
      if !b.innerProofData[n - 1].IsPadding() {
        var before, index := ProcessInners(k, account, db, b, n - 1, txs), b.dataStartIndex + (n - 1) * 2;
        ItemNotesInTree(k, account, db, b, ItemAt(b, n - 1), index, before, data);
        var more := ProcessItem(k, account, db, b, ItemAt(b, n - 1), index, before);
        assert (before + more)[|txs|..] == before[|txs|..] + more;
      }
    }
  }

  ghost predicate SlotsAt(data: Tree, start: nat, inners: seq<InnerProofData>) {
    forall s | 0 <= s < |inners| ::
      && data.Get(start + 2 * s) == inners[s].noteCommitment1
      && data.Get(start + 2 * s + 1) == inners[s].noteCommitment2
  }

  lemma ReplayedSlots(hash: map<nat, Leaf> -> Leaf, t: Trees, r: RollupProofData)
    requires t.data.size <= r.dataStartIndex
    ensures SlotsAt(WorldStateSync.Replay(hash, t, r).data, r.dataStartIndex, r.innerProofData)
  {
    hide WorldStateSync.Replay, Tree.Get, RollupTrees.PutSlots, RollupTrees.PutNullifiers, RollupTrees.PutAll;
    RollupAgreement.ReplayUnfolds(hash, t, r);
    var data := RollupTrees.PutSlots(t.data, r.dataStartIndex, r.innerProofData);
    forall s | 0 <= s < |r.innerProofData|
      ensures data.Get(r.dataStartIndex + 2 * s) == r.innerProofData[s].noteCommitment1
      ensures data.Get(r.dataStartIndex + 2 * s + 1) == r.innerProofData[s].noteCommitment2
    {
      RollupContents.SlotRead(t.data, r.dataStartIndex, r.innerProofData, s);
    }
  }

  lemma BlockNotesInTree(k: Keys, account: nat, db: Db, b: Block, txs: seq<ProcessedTx>, data: Tree)
    requires WellFormed(b) && ClaimsHaveDeposits(db) && SlotsAt(data, b.dataStartIndex, b.innerProofData)
    ensures txs <= ProcessOne(k, account, db, b, txs)
    ensures forall tx | tx in ProcessOne(k, account, db, b, txs)[|txs|..] :: InTree(data, tx)
  {
    var n := |b.innerProofData|;
    InnerNotesInTree(k, account, db, b, n, txs, data);
    var inner := ProcessInners(k, account, db, b, n, txs);
    AccountBatches.FinaliseOnlyRecords(account, db, b.interactionResult, inner);
    var records := FinaliseAll(account, db, b.interactionResult, inner);
    NothingToFind(data, records);
    hide ProcessInners, FinaliseAll, Tree.Get, ClaimsHaveDeposits, InTree, WellFormed, AccountBatches.OnlyRecords;
    assert (inner + records)[|txs|..] == inner[|txs|..] + records;
  }

  lemma NothingToFind(data: Tree, txs: seq<ProcessedTx>)
    requires AccountBatches.OnlyRecords(txs)
    ensures forall tx | tx in txs :: InTree(data, tx)
  {
  }

  /**
   * Whoever replays a published rollup has, at the index that the account records for each note it
   * makes of that rollup, the note's own commitment: payments, changes and claims alike.
   */
  lemma NotesAreInTheTree(k: Keys, account: nat, db: Db, b: Block, txs: seq<ProcessedTx>, hash: map<nat, Leaf> -> Leaf,
                          t: Trees, r: RollupProofData)
    requires WellFormed(b) && ClaimsHaveDeposits(db)
    requires b.dataStartIndex == r.dataStartIndex && b.innerProofData == r.innerProofData
    requires t.data.size <= r.dataStartIndex
    ensures txs <= ProcessOne(k, account, db, b, txs)
    ensures forall tx | tx in ProcessOne(k, account, db, b, txs)[|txs|..] ::
              InTree(WorldStateSync.Replay(hash, t, r).data, tx)
  {
    hide *;
    ReplayedSlots(hash, t, r);
    BlockNotesInTree(k, account, db, b, txs, WorldStateSync.Replay(hash, t, r).data);
  }
}
