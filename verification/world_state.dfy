/** falafel's WorldState: applying a published rollup to the trees and recording its claims. */
module WorldStateSync {
  import Util
  import opened WorldStateStore
  import opened Rollup
  import RollupTrees
  import opened RollupCreation

  /** The trees after replaying r on top of t; t already past r's start index is left as it is. */
  function Replay(hash: map<nat, Leaf> -> Leaf, t: Trees, r: RollupProofData): Trees {
    if t.data.size > r.dataStartIndex then t
    else
      var filled := PutInners(t, r.dataStartIndex, r.innerProofData);
      filled.(roots := t.roots.Put(r.rollupId + 1, hash(filled.data.leaves)),
              defi := RollupTrees.PutAll(t.defi, r.rollupId * NUM_BRIDGE_CALLS_PER_BLOCK, r.defiInteractionNotes))
  }

  predicate RootsMatch(hash: map<nat, Leaf> -> Leaf, t: Trees, r: RollupProofData) {
    && r.newDataRoot == hash(t.data.leaves)
    && r.newNullRoot == hash(t.nulls.leaves)
    && r.newDataRootsRoot == hash(t.roots.leaves)
    && r.newDefiRoot == hash(t.defi.leaves)
  }

  /** The committed trees after a block, given the pipeline's uncommitted `working` trees. */
  function AfterBlock(hash: map<nat, Leaf> -> Leaf, committed: Trees, working: Trees, nextRollupId: nat,
                      r: RollupProofData): Trees {
    if r.rollupId != nextRollupId then committed
    else if RootsMatch(hash, working, r) then working
    else Replay(hash, committed, r)
  }

  /** The part of a deposit's off-chain data that identifies its claim. */
  datatype OffchainData = OffchainData(bridgeCallData: nat, txFee: nat)

  datatype Claim = Claim(id: nat, interactionNonce: int, fee: nat)

  /** Claims recorded for the first n inner proofs; `used` off-chain entries belong to them. */
  function ClaimsOf(r: RollupProofData, offchain: seq<OffchainData>, n: nat): (seq<Claim>, nat)
    requires n <= |r.innerProofData|
  {
    if n == 0 then ([], 0)
    else
      var (claims, used) := ClaimsOf(r, offchain, n - 1);
      var p := r.innerProofData[n - 1];
      if p.IsPadding() then (claims, used)
      else if p.proofId == DEFI_DEPOSIT && used < |offchain| then
        (claims + [Claim(r.dataStartIndex + (n - 1) * 2,
                         InteractionNonce(r.rollupId, r.bridgeCallDatas, offchain[used].bridgeCallData),
                         ClaimFee(offchain[used].txFee))], used + 1)
      else (claims, used + 1)
  }

  class WorldState {
    const db: WorldStateDb
    var nextRollupId: nat

    constructor (db: WorldStateDb, nextRollupId: nat)
      ensures this.db == db && this.nextRollupId == nextRollupId
    {
      this.db, this.nextRollupId := db, nextRollupId;
    }

    method AddRollupToWorldState(r: RollupProofData)
      modifies db
      ensures db.working == Replay(db.hash, old(db.working), r)
      ensures db.committed == if old(db.GetSize(DATA)) > r.dataStartIndex then old(db.committed) else db.working
    {
      if db.GetSize(DATA) > r.dataStartIndex {
        return;
      }
      ghost var t := db.working;
      var inners := r.innerProofData;
      NothingPut(t, r.dataStartIndex);
      hide PutInner, PutInners, RollupTrees.PutAll, Tree.Put;
      assert inners[..0] == [];
      for i := 0 to |inners|
        invariant db.working == PutInners(t, r.dataStartIndex, inners[..i])
        invariant db.committed == old(db.committed)
      {
        assert inners[..i + 1] == inners[..i] + [inners[i]];
        PutInnersStep(t, r.dataStartIndex, inners[..i], inners[i]);
        AddInnerProof(inners[i], r.dataStartIndex + i * 2);
      }
      assert inners[..|inners|] == inners;
      db.Put(ROOT, r.rollupId + 1, db.GetRoot(DATA));
      ghost var u := db.working;
      var start, notes := r.rollupId * NUM_BRIDGE_CALLS_PER_BLOCK, r.defiInteractionNotes;
      assert notes[..0] == [];
      for i := 0 to |notes|
        invariant db.working == u.(defi := RollupTrees.PutAll(t.defi, start, notes[..i]))
        invariant db.committed == old(db.committed)
      {
        PutAllStep(t.defi, start, notes, i);
        db.Put(DEFI, start + i, notes[i]);
      }
      assert notes[..|notes|] == notes;
      db.Commit();
    }

    lemma NothingPut(t: Trees, start: nat)
      ensures PutInners(t, start, []) == t && forall n :: RollupTrees.PutAll(t.defi, n, []) == t.defi
    {
    }

    lemma PutAllStep(t: Tree, start: nat, notes: seq<Leaf>, i: nat)
      requires i < |notes|
      ensures RollupTrees.PutAll(t, start, notes[..i + 1]) ==
              RollupTrees.PutAll(t, start, notes[..i]).Put(start + i, notes[i])
    {
      assert notes[..i + 1][..i] == notes[..i];
    }

    method AddInnerProof(tx: InnerProofData, index: nat)
      modifies db
      ensures db.working == PutInner(old(db.working), index, tx)
      ensures db.committed == old(db.committed)
    {
      db.Put(DATA, index, tx.noteCommitment1);
      db.Put(DATA, index + 1, tx.noteCommitment2);
      if !tx.IsPadding() {
        if tx.nullifier1 != 0 {
          db.Put(NULL, tx.nullifier1, 1);
        }
        if tx.nullifier2 != 0 {
          db.Put(NULL, tx.nullifier2, 1);
        }
      }
    }

    method UpdateDbs(r: RollupProofData)
      modifies this, db
      ensures db.committed == AfterBlock(db.hash, old(db.committed), old(db.working), old(nextRollupId), r)
      ensures r.rollupId == old(nextRollupId) ==> db.working == db.committed
      ensures nextRollupId == if r.rollupId == old(nextRollupId) then old(nextRollupId) + 1 else old(nextRollupId)
    {
      if r.rollupId != nextRollupId {
        return;
      }
      var rollupIsOurs :=
        && r.newDataRoot == db.GetRoot(DATA)
        && r.newNullRoot == db.GetRoot(NULL)
        && r.newDataRootsRoot == db.GetRoot(ROOT)
        && r.newDefiRoot == db.GetRoot(DEFI);
      if rollupIsOurs {
        db.Commit();
      } else {
        db.Rollback();
        AddRollupToWorldState(r);
      }
      nextRollupId := nextRollupId + 1;
    }

    method ProcessDefiProofs(r: RollupProofData, offchain: seq<OffchainData>) returns (claims: seq<Claim>)
      requires |offchain| == NumTxs(r.innerProofData)
      ensures claims == ClaimsOf(r, offchain, |r.innerProofData|).0
    {
      claims := [];
      var offChainIndex := 0;
      for i := 0 to |r.innerProofData|
        invariant (claims, offChainIndex) == ClaimsOf(r, offchain, i)
        invariant offChainIndex == NumTxs(r.innerProofData[..i])
      {
        assert r.innerProofData[..i + 1][..i] == r.innerProofData[..i];
        NumTxsMonotone(r.innerProofData, i + 1);
        var proofData := r.innerProofData[i];
        if proofData.IsPadding() {
          continue;
        }
        if proofData.proofId == DEFI_DEPOSIT {
          var data := offchain[offChainIndex];
          var interactionNonce := Util.FindIndex(r.bridgeCallDatas, data.bridgeCallData)
            + r.rollupId * NUM_BRIDGE_CALLS_PER_BLOCK;
          claims := claims + [Claim(r.dataStartIndex + i * 2, interactionNonce, ClaimFee(data.txFee))];
        }
        offChainIndex := offChainIndex + 1;
      }
    }
  }
}
