/** falafel's RollupCreator: inserting the txs of one inner rollup and finding what they chain from. */
module RollupCreation {
  import opened Util
  import opened WorldStateStore
  import opened Rollup
  import opened RollupTrees

  /** The parts of a TxRollup that are not roots or hash paths. */
  datatype TxRollup = TxRollup(
    rollupId: nat, dataStartIndex: nat, proofs: seq<ProofData>, linkedCommitmentIndices: seq<nat>,
    bridgeCallDatas: seq<nat>)

  /** The lists shared by all inner rollups of one rollup. */
  class RollupResources {
    var bridgeCallDatas: seq<nat>

    constructor (bridgeCallDatas: seq<nat>)
      ensures this.bridgeCallDatas == bridgeCallDatas
    {
      this.bridgeCallDatas := bridgeCallDatas;
    }
  }

  function PutInner(t: Trees, index: nat, p: InnerProofData): Trees {
    t.(data := t.data.Put(index, p.noteCommitment1).Put(index + 1, p.noteCommitment2),
       nulls := if p.IsPadding() then t.nulls else PutNullifier(PutNullifier(t.nulls, p.nullifier1), p.nullifier2))
  }

  function PutInners(t: Trees, start: nat, inners: seq<InnerProofData>): Trees {
    t.(data := PutSlots(t.data, start, inners), nulls := PutNullifiers(t.nulls, inners))
  }

  lemma PutInnersStep(t: Trees, start: nat, inners: seq<InnerProofData>, p: InnerProofData)
    ensures PutInners(t, start, inners + [p]) == PutInner(PutInners(t, start, inners), start + 2 * |inners|, p)
  {
    assert (inners + [p])[..|inners|] == inners;
  }

  /** The trees after one inner rollup whose inner proofs go in at `start`. */
  function InnerTrees(cfg: Config, t: Trees, start: nat, inners: seq<InnerProofData>): Trees
    requires cfg.innerRollupSize > 0
  {
    var filled := PutInners(t, start, inners);
    if |inners| < cfg.numInnerRollupTxs then filled.Put(DATA, start + cfg.innerRollupSize * 2 - 1, 0) else filled
  }

  function StartIndex(cfg: Config, dataSize: nat, firstInner: bool): nat
    requires cfg.outerRollupSize > 0 && cfg.innerRollupSize > 0
  {
    AlignUp(dataSize, if firstInner then cfg.outerRollupSize * 2 else cfg.innerRollupSize * 2)
  }

  lemma PublishAllStep(cfg: Config, rollupId: nat, bridges: seq<nat>, ps: seq<ProofData>, i: nat)
    requires i < |ps|
    ensures Covers(AddBridges(bridges, ps[..i]), ps[..i])
    ensures Covers(AddBridges(bridges, ps[..i + 1]), ps[..i + 1])
    ensures var b := AddBridges(bridges, ps[..i + 1]);
            && AddBridges(bridges, ps[..i]) <= b
            && b == AddBridge(AddBridges(bridges, ps[..i]), ps[i])
            && (ps[i].proofId == DEFI_DEPOSIT ==> ps[i].bridgeCallData in b)
            && PublishAll(cfg, rollupId, b, ps[..i + 1]) ==
                 PublishAll(cfg, rollupId, AddBridges(bridges, ps[..i]), ps[..i]) + [Publish(cfg, rollupId, b, ps[i])]
  {
    var front, all := ps[..i], ps[..i + 1];
    assert all[..i] == front && all[i] == ps[i];
    var a, b := AddBridges(bridges, front), AddBridges(bridges, all);
    AddBridgesFacts(bridges, front);
    AddBridgesFacts(bridges, all);
    hide Publish;
    forall k | 0 <= k < i
      ensures Publish(cfg, rollupId, b, all[k]) == Publish(cfg, rollupId, a, front[k])
    {
      assert all[k] == front[k];
      PublishStable(cfg, rollupId, a, b, front[k]);
    }
  }

  // ---- linked commitments ----

  /** The non-zero commitments of the first n proofs. */
  ghost predicate CommittedBefore(ps: seq<ProofData>, n: nat, c: Leaf)
    requires n <= |ps|
  {
    c != 0 && exists i :: 0 <= i < n && (ps[i].noteCommitment1 == c || ps[i].noteCommitment2 == c)
  }

  /**
   * What the circuit needs for proof i: the last leaf below `size` that holds the commitment it
   * chains from, or 0 if it chains from nothing, from this rollup, or from an unknown commitment.
   */
  ghost predicate IsLinkIndex(t: Tree, size: nat, ps: seq<ProofData>, i: nat, r: nat)
    requires i < |ps|
  {
    var link := ps[i].backwardLink;
    if link == 0 || CommittedBefore(ps, i, link) then r == 0 else IsLastIndex(t, size, link, r)
  }

  ghost predicate IsLastIndex(t: Tree, size: nat, link: Leaf, r: nat) {
    if forall k: nat | k < size :: t.Get(k) != link then r == 0
    else r < size && t.Get(r) == link && forall k: nat | r < k < size :: t.Get(k) != link
  }

  /** The link index, read off the proofs and the leaves. */
  lemma LinkIndexIs(t: Tree, size: nat, ps: seq<ProofData>, i: nat, r: nat)
    requires i < |ps| && IsLinkIndex(t, size, ps, i, r)
    ensures var link := ps[i].backwardLink;
            var none := link == 0 || exists j :: 0 <= j < i && link in [ps[j].noteCommitment1, ps[j].noteCommitment2];
            && (none ==> r == 0)
            && (!none && (exists n: nat :: n < size && t.Get(n) == link) ==>
                  r < size && t.Get(r) == link && forall n: nat | r < n < size :: t.Get(n) != link)
            && (!none && (forall n: nat | n < size :: t.Get(n) != link) ==> r == 0)
  {
    var link := ps[i].backwardLink;
    if j :| 0 <= j < i && link in [ps[j].noteCommitment1, ps[j].noteCommitment2] {
      assert link == 0 || CommittedBefore(ps, i, link);
    }
  }

  /** The leaves read so far are the cached ones: each once, from the last leaf down. */
  ghost predicate ReadsOf(leafReads: seq<nat>, cache: seq<Leaf>, size: nat) {
    |leafReads| == |cache| && forall k | 0 <= k < |cache| :: leafReads[k] == size - 1 - k
  }

  ghost predicate IsReversedSuffix(cache: seq<Leaf>, t: Tree, size: nat) {
    |cache| <= size && forall k | 0 <= k < |cache| :: cache[k] == t.Get(size - 1 - k)
  }

  class RollupCreator {
    const db: WorldStateDb
    const cfg: Config

    constructor (db: WorldStateDb, cfg: Config)
      ensures this.db == db && this.cfg == cfg
    {
      this.db, this.cfg := db, cfg;
    }

    method CreateRollup(rollupId: nat, txs: seq<ProofData>, resources: RollupResources, firstInner: bool)
      returns (r: TxRollup)
      requires cfg.Valid()
      requires forall i | 0 <= i < |txs| :: txs[i].proofId != PADDING
      modifies db, resources
      ensures resources.bridgeCallDatas == AddBridges(old(resources.bridgeCallDatas), txs)
      ensures r.rollupId == rollupId && r.proofs == txs && r.bridgeCallDatas == resources.bridgeCallDatas
      ensures r.dataStartIndex == StartIndex(cfg, old(db.GetSize(DATA)), firstInner)
      ensures |r.linkedCommitmentIndices| == |txs|
      ensures forall i | 0 <= i < |txs| ::
                IsLinkIndex(old(db.working.data), old(db.GetSize(DATA)), txs, i, r.linkedCommitmentIndices[i])
      ensures Covers(resources.bridgeCallDatas, txs)
      ensures db.working == InnerTrees(cfg, old(db.working), r.dataStartIndex,
                                       PublishAll(cfg, rollupId, resources.bridgeCallDatas, txs))
      ensures db.committed == old(db.committed)
    {
      hide PutInners, PutSlots, PutNullifiers, AddBridges, Publish, AlignUp, IsLinkIndex, CommittedBefore, FindIndex;
      var dataSize := db.GetSize(DATA);
      var subtreeSize := if firstInner then cfg.outerRollupSize * 2 else cfg.innerRollupSize * 2;
      var dataStartIndex := FindDataStart(dataSize, subtreeSize);
      var linked, _ := GetLinkedCommitments(txs);
      InsertTxs(rollupId, txs, dataStartIndex, resources);
      if |txs| < cfg.numInnerRollupTxs {
        // Grows the data tree to the end of this inner rollup's subtree.
        db.Put(DATA, dataStartIndex + cfg.innerRollupSize * 2 - 1, 0);
      }
      r := TxRollup(rollupId, dataStartIndex, txs, linked, resources.bridgeCallDatas);
    }

    method FindDataStart(dataSize: nat, subtreeSize: nat) returns (dataStartIndex: nat)
      requires subtreeSize > 0
      ensures dataStartIndex == AlignUp(dataSize, subtreeSize)
    {
      AlignUpFormula(dataSize, subtreeSize);
      dataStartIndex :=
        if dataSize % subtreeSize == 0 then dataSize else dataSize + subtreeSize - dataSize % subtreeSize;
    }

    method InsertTxs(rollupId: nat, txs: seq<ProofData>, dataStartIndex: nat, resources: RollupResources)
      requires forall i | 0 <= i < |txs| :: txs[i].proofId != PADDING
      modifies db, resources
      ensures resources.bridgeCallDatas == AddBridges(old(resources.bridgeCallDatas), txs)
      ensures Covers(resources.bridgeCallDatas, txs)
      ensures db.working ==
              PutInners(old(db.working), dataStartIndex, PublishAll(cfg, rollupId, resources.bridgeCallDatas, txs))
      ensures db.committed == old(db.committed)
    {
      ghost var t, b := db.working, resources.bridgeCallDatas;
      var nextDataIndex := dataStartIndex;
      for i := 0 to |txs|
        modifies db, resources
        invariant db.committed == old(db.committed)
        invariant nextDataIndex == dataStartIndex + 2 * i
        invariant resources.bridgeCallDatas == AddBridges(b, txs[..i])
        invariant Covers(resources.bridgeCallDatas, txs[..i])
        invariant db.working == PutInners(t, dataStartIndex,
                                          PublishAll(cfg, rollupId, resources.bridgeCallDatas, txs[..i]))
      {
        PublishAllStep(cfg, rollupId, b, txs, i);
        ghost var before := PublishAll(cfg, rollupId, resources.bridgeCallDatas, txs[..i]);
        InsertTx(rollupId, txs[i], nextDataIndex, resources);
        PutInnersStep(t, dataStartIndex, before, Publish(cfg, rollupId, resources.bridgeCallDatas, txs[i]));
        nextDataIndex := nextDataIndex + 2;
      }
      assert txs[..|txs|] == txs;
    }

    /** One tx: its two commitments from `index` on, then its non-zero nullifiers. */
    method InsertTx(rollupId: nat, proof: ProofData, index: nat, resources: RollupResources)
      requires proof.proofId != PADDING
      modifies db, resources
      ensures resources.bridgeCallDatas == AddBridge(old(resources.bridgeCallDatas), proof)
      ensures proof.proofId == DEFI_DEPOSIT ==> proof.bridgeCallData in resources.bridgeCallDatas
      ensures db.working == PutInner(old(db.working), index, Publish(cfg, rollupId, resources.bridgeCallDatas, proof))
      ensures proof.proofId != DEFI_DEPOSIT ==> db.Get(DATA, index) == proof.noteCommitment1
      ensures db.Get(DATA, index + 1) == proof.noteCommitment2
      ensures forall n: nat ::
                db.Get(NULL, n) ==
                if n != 0 && (n == proof.nullifier1 || n == proof.nullifier2) then 1 else old(db.Get(NULL, n))
      ensures db.committed == old(db.committed)
    {
      hide FindIndex, Tree.Put, Tree.Get;
      ghost var before := db.working;
      var note1 := proof.noteCommitment1;
      if proof.proofId == DEFI_DEPOSIT {
        var rootBridgeIndex := AddBridgeCallData(proof, resources);
        var interactionNonce := rollupId * NUM_BRIDGE_CALLS_PER_BLOCK + rootBridgeIndex;
        note1 := cfg.claimNote(proof.noteCommitment1, interactionNonce, ClaimFee(proof.txFee));
      }
      db.Put(DATA, index, note1);
      db.Put(DATA, index + 1, proof.noteCommitment2);
      if proof.nullifier1 != 0 {
        db.Put(NULL, proof.nullifier1, 1);
      }
      if proof.nullifier2 != 0 {
        db.Put(NULL, proof.nullifier2, 1);
      }
      ReadBack(before, db.working, index, note1, proof);
    }

    lemma ReadBack(before: Trees, after: Trees, index: nat, note1: Leaf, proof: ProofData)
      requires after.data == before.data.Put(index, note1).Put(index + 1, proof.noteCommitment2)
      requires after.nulls == PutNullifier(PutNullifier(before.nulls, proof.nullifier1), proof.nullifier2)
      ensures after.data.Get(index) == note1 && after.data.Get(index + 1) == proof.noteCommitment2
      ensures forall n: nat ::
                after.nulls.Get(n) ==
                if n != 0 && (n == proof.nullifier1 || n == proof.nullifier2) then 1 else before.nulls.Get(n)
    {
    }

    /** Where a deposit's bridge call is in the rollup's list, adding it if it is new. */
    method AddBridgeCallData(proof: ProofData, resources: RollupResources) returns (rootBridgeIndex: nat)
      requires proof.proofId == DEFI_DEPOSIT
      modifies resources
      ensures resources.bridgeCallDatas == AddBridge(old(resources.bridgeCallDatas), proof)
      ensures proof.bridgeCallData in resources.bridgeCallDatas
      ensures rootBridgeIndex == FindIndex(resources.bridgeCallDatas, proof.bridgeCallData)
    {
      var index := FindIndex(resources.bridgeCallDatas, proof.bridgeCallData);
      if index == -1 {
        index := |resources.bridgeCallDatas|;
        resources.bridgeCallDatas := resources.bridgeCallDatas + [proof.bridgeCallData];
      }
      rootBridgeIndex := index;
    }

    /** `leafReads` lists the data leaves fetched from the tree: from the last one down, none twice. */
    method GetLinkedCommitments(proofs: seq<ProofData>) returns (indices: seq<nat>, ghost leafReads: seq<nat>)
      ensures |indices| == |proofs|
      ensures forall i | 0 <= i < |proofs| :: IsLinkIndex(db.working.data, db.GetSize(DATA), proofs, i, indices[i])
      ensures |leafReads| <= db.GetSize(DATA)
      ensures forall j, k | 0 <= j < k < |leafReads| :: leafReads[k] < leafReads[j] < db.GetSize(DATA)
    {
      var commitmentsInCurrentRollup: set<Leaf> := {};
      indices, leafReads := [], [];
      var dataSize := db.GetSize(DATA);
      var dataTreeValues: seq<Leaf> := [];
      for i := 0 to |proofs|
        invariant |indices| == i
        invariant forall k | 0 <= k < i :: IsLinkIndex(db.working.data, dataSize, proofs, k, indices[k])
        invariant forall c :: c in commitmentsInCurrentRollup <==> CommittedBefore(proofs, i, c)
        invariant IsReversedSuffix(dataTreeValues, db.working.data, dataSize)
        invariant ReadsOf(leafReads, dataTreeValues, dataSize)
      {
        var backwardLink := proofs[i].backwardLink;
        if backwardLink == 0 || backwardLink in commitmentsInCurrentRollup {
          indices := indices + [0];
        } else {
          var indexIntoCache := FindIndex(dataTreeValues, backwardLink);
          CacheHit(dataTreeValues, db.working.data, dataSize, backwardLink);
          if indexIntoCache != -1 {
            var indexIntoTree := dataSize - (indexIntoCache + 1);
            indices := indices + [indexIntoTree];
          } else {
            var found;
            found, dataTreeValues, leafReads := ScanBack(backwardLink, dataTreeValues, leafReads);
            indices := indices + [found];
          }
        }
        if proofs[i].noteCommitment1 != 0 {
          commitmentsInCurrentRollup := commitmentsInCurrentRollup + {proofs[i].noteCommitment1};
        }
        if proofs[i].noteCommitment2 != 0 {
          commitmentsInCurrentRollup := commitmentsInCurrentRollup + {proofs[i].noteCommitment2};
        }
      }
    }

    /** Extends the cache down the tree to the next leaf holding `link`; 0 if there is none. */
    method ScanBack(link: Leaf, cache: seq<Leaf>, ghost reads0: seq<nat>)
      returns (index: nat, cache': seq<Leaf>, ghost reads1: seq<nat>)
      requires IsReversedSuffix(cache, db.working.data, db.GetSize(DATA)) && link !in cache
      requires ReadsOf(reads0, cache, db.GetSize(DATA))
      ensures IsReversedSuffix(cache', db.working.data, db.GetSize(DATA))
      ensures ReadsOf(reads1, cache', db.GetSize(DATA))
      ensures IsLastIndex(db.working.data, db.GetSize(DATA), link, index)
    {
      var dataSize := db.GetSize(DATA);
      CacheHit(cache, db.working.data, dataSize, link);
      cache', reads1 := cache, reads0;
      var indexIntoTree: int := dataSize - (|cache| + 1);
      while indexIntoTree >= 0
        invariant -1 <= indexIntoTree < dataSize
        invariant |cache'| == dataSize - 1 - indexIntoTree
        invariant IsReversedSuffix(cache', db.working.data, dataSize)
        invariant forall k: nat | indexIntoTree < k < dataSize :: db.working.data.Get(k) != link
        invariant ReadsOf(reads1, cache', dataSize)
      {
        var valueFromTree := db.Get(DATA, indexIntoTree);
        cache' := cache' + [valueFromTree];
        reads1 := reads1 + [indexIntoTree];
        if valueFromTree == link {
          return indexIntoTree, cache', reads1;
        }
        indexIntoTree := indexIntoTree - 1;
      }
      index := 0;
    }
  }

  /** The first hit in the reversed suffix is the last hit in the tree; a miss rules the suffix out. */
  lemma CacheHit(cache: seq<Leaf>, t: Tree, size: nat, link: Leaf)
    requires IsReversedSuffix(cache, t, size)
    ensures var r := FindIndex(cache, link);
            if r == -1 then forall k: nat | size - |cache| <= k < size :: t.Get(k) != link
            else t.Get(size - 1 - r) == link && forall k: nat | size - 1 - r < k < size :: t.Get(k) != link
  {
    var r := FindIndex(cache, link);
    forall k: nat | size - |cache| <= k < size && (r == -1 || size - 1 - r < k)
      ensures t.Get(k) != link
    {
      assert cache[size - 1 - k] == t.Get(k);
      if r != -1 {
        assert cache[..r][size - 1 - k] == cache[size - 1 - k];
      }
    }
  }
}
