/**
 * What a rollup leaves in the trees, and what is published of it, read off the txs that went in:
 * the builder's trees and a replayer's hold exactly the txs' own commitments and nullifiers.
 */
module RollupContents {
  import Arithmetic
  import Util
  import opened WorldStateStore
  import opened Rollup
  import opened RollupTrees
  import opened RollupCreation
  import opened RollupBuild
  import WorldStateSync
  import RollupAgreement

  // ---- what should be there ----

  /** The slot of tx j of inner rollup k, counted from the start of the rollup. */
  function SlotOf(cfg: Config, k: nat, j: nat): nat { k * cfg.innerRollupSize + j }

  ghost predicate IsTx(chunks: seq<seq<ProofData>>, k: nat, j: nat) { k < |chunks| && j < |chunks[k]| }

  function TxAt(chunks: seq<seq<ProofData>>, k: nat, j: nat): ProofData
    requires IsTx(chunks, k, j)
  {
    chunks[k][j]
  }

  /** Some tx of the rollup has nullifier n. */
  ghost predicate SpentBy(chunks: seq<seq<ProofData>>, n: nat) {
    exists k: nat, j: nat ::
      IsTx(chunks, k, j) && (TxAt(chunks, k, j).nullifier1 == n || TxAt(chunks, k, j).nullifier2 == n)
  }

  /**
   * The first note of a tx in a rollup: its own, or of a DeFi deposit the claim note completed with
   * the number of its interaction and the larger half of the tx's fee.
   */
  ghost predicate IsFirstNote(cfg: Config, id: nat, bridges: seq<nat>, tx: ProofData, note: Leaf) {
    if tx.proofId != DEFI_DEPOSIT then note == tx.noteCommitment1
    else
      exists call: nat ::
        && IsFirst(bridges, tx.bridgeCallData, call)
        && note == cfg.claimNote(tx.noteCommitment1, id * 32 + call, (tx.txFee + 1) / 2)
  }

  ghost predicate IsFirst(bridges: seq<nat>, bridgeCallData: nat, call: nat) {
    call < |bridges| && bridges[call] == bridgeCallData && forall i | 0 <= i < call :: bridges[i] != bridgeCallData
  }

  /** `u` is `t` with the rollup's txs in it, from data leaf `start` on, its data root, and nothing else. */
  ghost predicate HoldsTxs(cfg: Config, t: Trees, u: Trees, id: nat, start: nat, input: BuildInput) {
    && NotesHeld(cfg, u.data, id, start, input)
    && OthersKept(cfg, t.data, u.data, start, input.chunks)
    && NullifiersHeld(t.nulls, u.nulls, input.chunks)
    && (forall n: nat | n != id + 1 :: u.roots.Get(n) == t.roots.Get(n))
    && InteractionsHeld(t.defi, u.defi, id * 32, input.interactionNotes)
  }

  ghost predicate NullifiersHeld(before: Tree, after: Tree, chunks: seq<seq<ProofData>>) {
    forall n: nat :: after.Get(n) == if n != 0 && SpentBy(chunks, n) then 1 else before.Get(n)
  }

  ghost predicate InteractionsHeld(before: Tree, after: Tree, from: nat, notes: seq<Leaf>) {
    forall n: nat :: after.Get(n) == if from <= n < from + |notes| then notes[n - from] else before.Get(n)
  }

  ghost predicate NotesHeld(cfg: Config, data: Tree, id: nat, start: nat, input: BuildInput) {
    forall k: nat, j: nat | IsTx(input.chunks, k, j) ::
      && IsFirstNote(cfg, id, input.AllBridges(), TxAt(input.chunks, k, j), data.Get(start + 2 * SlotOf(cfg, k, j)))
      && data.Get(start + 2 * SlotOf(cfg, k, j) + 1) == TxAt(input.chunks, k, j).noteCommitment2
  }

  ghost predicate OthersKept(cfg: Config, before: Tree, after: Tree, start: nat, chunks: seq<seq<ProofData>>) {
    forall n: nat | !IsNotePlace(cfg, start, chunks, n) :: after.Get(n) == before.Get(n)
  }

  ghost predicate IsNotePlace(cfg: Config, start: nat, chunks: seq<seq<ProofData>>, n: nat) {
    exists k: nat, j: nat ::
      IsTx(chunks, k, j) && start + 2 * SlotOf(cfg, k, j) <= n <= start + 2 * SlotOf(cfg, k, j) + 1
  }

  /**
   * What is published: each tx in its slot and padding everywhere else, and the bridge calls and
   * interaction notes, both filled up to 32.
   */
  ghost predicate Publishes(cfg: Config, r: RollupProofData, id: nat, input: BuildInput)
    requires input.Valid(cfg)
  {
    && r.rollupId == id && |r.innerProofData| == cfg.outerRollupSize
    && FilledUp(input.AllBridges(), r.bridgeCallDatas) && FilledUp(input.interactionNotes, r.defiInteractionNotes)
    && (forall k: nat, j: nat | IsTx(input.chunks, k, j) ::
          SlotOf(cfg, k, j) < |r.innerProofData| &&
          PublishesTx(cfg, id, input.AllBridges(), TxAt(input.chunks, k, j), r.innerProofData[SlotOf(cfg, k, j)]))
    && (forall s: nat | s < |r.innerProofData| && !IsTxSlot(cfg, input.chunks, s) ::
          r.innerProofData[s] == InnerProofData(PADDING, 0, 0, 0, 0))
  }

  ghost predicate FilledUp(s: seq<nat>, filled: seq<nat>) {
    && |s| <= |filled| == 32
    && forall i | 0 <= i < 32 :: filled[i] == if i < |s| then s[i] else 0
  }

  ghost predicate PublishesTx(cfg: Config, id: nat, bridges: seq<nat>, tx: ProofData, p: InnerProofData) {
    && p.proofId == tx.proofId && p.nullifier1 == tx.nullifier1 && p.nullifier2 == tx.nullifier2
    && p.noteCommitment2 == tx.noteCommitment2
    && IsFirstNote(cfg, id, bridges, tx, p.noteCommitment1)
  }

  ghost predicate IsTxSlot(cfg: Config, chunks: seq<seq<ProofData>>, s: nat) {
    exists k: nat, j: nat :: IsTx(chunks, k, j) && s == SlotOf(cfg, k, j)
  }

  // ---- what is published ----

  lemma PublishedTx(cfg: Config, id: nat, bridges: seq<nat>, tx: ProofData)
    requires tx.proofId == DEFI_DEPOSIT ==> tx.bridgeCallData in bridges
    ensures PublishesTx(cfg, id, bridges, tx, Publish(cfg, id, bridges, tx))
  {
    if tx.proofId == DEFI_DEPOSIT {
      var call := Util.FindIndex(bridges, tx.bridgeCallData);
      assert forall i | 0 <= i < call :: bridges[..call][i] == bridges[i];
      assert IsFirst(bridges, tx.bridgeCallData, call);
      assert ClaimFee(tx.txFee) == (tx.txFee + 1) / 2;
    }
  }

  /** Where each published slot of the inner rollups comes from. */
  lemma {:induction false} SlotsOfTxs(cfg: Config, id: nat, bridges: seq<nat>, chunks: seq<seq<ProofData>>, k: nat,
                                      j: nat)
    requires cfg.Valid() && CoversAll(bridges, chunks) && forall i | 0 <= i < |chunks| :: ValidChunk(cfg, chunks[i])
    requires k < |chunks| && j < cfg.innerRollupSize
    ensures |PaddedInners(cfg, id, bridges, chunks)| == |chunks| * cfg.innerRollupSize
    ensures SlotOf(cfg, k, j) < |PaddedInners(cfg, id, bridges, chunks)|
    ensures PaddedInners(cfg, id, bridges, chunks)[SlotOf(cfg, k, j)] ==
            if j < |chunks[k]| then Publish(cfg, id, bridges, chunks[k][j]) else PaddingProof
  {
    var n := |chunks| - 1;
    hide Publish;
    RollupAgreement.PaddedLength(cfg, id, bridges, chunks);
    RollupAgreement.PaddedLength(cfg, id, bridges, chunks[..n]);
    Arithmetic.MulMonotone(k + 1, |chunks|, cfg.innerRollupSize);
    Arithmetic.Distribute(k, 1, cfg.innerRollupSize);
    assert ValidChunk(cfg, chunks[n]);
    if k < n {
      SlotsOfTxs(cfg, id, bridges, chunks[..n], k, j);
    }
  }

  lemma ChunkFits(cfg: Config, chunks: seq<seq<ProofData>>, k: nat, j: nat)
    requires cfg.Valid() && IsTx(chunks, k, j) && forall i | 0 <= i < |chunks| :: ValidChunk(cfg, chunks[i])
    ensures j < cfg.innerRollupSize
  {
    assert ValidChunk(cfg, chunks[k]);
  }

  /** A slot in two inner rollups is one slot of one of them. */
  lemma SlotParts(cfg: Config, chunks: seq<seq<ProofData>>, s: nat) returns (k: nat, j: nat)
    requires cfg.Valid() && s < |chunks| * cfg.innerRollupSize
    ensures k < |chunks| && j < cfg.innerRollupSize && s == SlotOf(cfg, k, j)
  {
    k, j := s / cfg.innerRollupSize, s % cfg.innerRollupSize;
    assert s == k * cfg.innerRollupSize + j;
    if k >= |chunks| {
      Arithmetic.MulMonotone(|chunks|, k, cfg.innerRollupSize);
    }
  }

  /** The bridge calls and slots of a rollup, as published. */
  lemma SlotsArePublished(cfg: Config, hash: map<nat, Leaf> -> Leaf, t: Trees, id: nat, input: BuildInput)
    requires input.Valid(cfg) && RollupAgreement.Settled(t, id)
    ensures var r := Published(cfg, hash, t, id, input);
            r.innerProofData == Pad(RollupAgreement.Slots(cfg, id, input), cfg.outerRollupSize)
    ensures var slots := RollupAgreement.Slots(cfg, id, input);
            && |slots| == |input.chunks| * cfg.innerRollupSize <= cfg.outerRollupSize
            && (forall k: nat, j: nat | IsTx(input.chunks, k, j) ::
                  SlotOf(cfg, k, j) < |slots|
                  && PublishesTx(cfg, id, input.AllBridges(), TxAt(input.chunks, k, j), slots[SlotOf(cfg, k, j)]))
            && (forall s: nat | s < |slots| && !IsTxSlot(cfg, input.chunks, s) :: slots[s] == PaddingProof)
  {
    AddBridgesFacts(input.bridges, Flatten(input.chunks));
    FlattenCovers(input.AllBridges(), input.chunks);
    RollupAgreement.OpenedFacts(cfg, t, id, input, StartIndex(cfg, t.data.size, true));
    hide Flatten, AddBridges, PublishesTx, Publish, BuildInners, Pad, Covers, PaddedInners, Build, SlotOf;
    var slots := RollupAgreement.Slots(cfg, id, input);
    forall k: nat, j: nat | IsTx(input.chunks, k, j)
      ensures SlotOf(cfg, k, j) < |slots|
      ensures PublishesTx(cfg, id, input.AllBridges(), TxAt(input.chunks, k, j), slots[SlotOf(cfg, k, j)])
    {
      ChunkFits(cfg, input.chunks, k, j);
      SlotsOfTxs(cfg, id, input.AllBridges(), input.chunks, k, j);
      TxIsCovered(input.AllBridges(), input.chunks, k, j);
      PublishedTx(cfg, id, input.AllBridges(), TxAt(input.chunks, k, j));
    }
    forall s: nat | s < |slots|
      ensures IsTxSlot(cfg, input.chunks, s) || slots[s] == PaddingProof
    {
      var k, j := SlotParts(cfg, input.chunks, s);
      SlotsOfTxs(cfg, id, input.AllBridges(), input.chunks, k, j);
      if j < |input.chunks[k]| {
        assert IsTx(input.chunks, k, j);
      }
    }
  }

  /** What is published of a rollup: its own txs, each in its slot, and padding; its bridge calls and notes. */
  lemma PublishedIsTxs(cfg: Config, hash: map<nat, Leaf> -> Leaf, t: Trees, id: nat, input: BuildInput)
    requires input.Valid(cfg) && RollupAgreement.Settled(t, id)
    ensures Publishes(cfg, Published(cfg, hash, t, id, input), id, input)
  {
    SlotsArePublished(cfg, hash, t, id, input);
    ListsArePublished(cfg, hash, t, id, input);
    hide PublishesTx, SlotOf, Published, RollupAgreement.Slots, BuildInput.Valid, RollupAgreement.Settled, FilledUp,
         Flatten, AddBridges;
  }

  lemma ListsArePublished(cfg: Config, hash: map<nat, Leaf> -> Leaf, t: Trees, id: nat, input: BuildInput)
    requires input.Valid(cfg)
    ensures var r := Published(cfg, hash, t, id, input);
            && r.rollupId == id
            && FilledUp(input.AllBridges(), r.bridgeCallDatas)
               && FilledUp(input.interactionNotes, r.defiInteractionNotes)
  {
    hide Flatten, AddBridges, Build, Pad, PaddedInners;
  }

  lemma TxIsCovered(bridges: seq<nat>, chunks: seq<seq<ProofData>>, k: nat, j: nat)
    requires CoversAll(bridges, chunks) && IsTx(chunks, k, j)
    ensures chunks[k][j].proofId == DEFI_DEPOSIT ==> chunks[k][j].bridgeCallData in bridges
  {
    assert Covers(bridges, chunks[k]);
  }

  // ---- what is in the trees ----

  lemma SlotRead(t: Tree, start: nat, inners: seq<InnerProofData>, s: nat)
    requires s < |inners|
    ensures PutSlots(t, start, inners).Get(start + 2 * s) == inners[s].noteCommitment1
    ensures PutSlots(t, start, inners).Get(start + 2 * s + 1) == inners[s].noteCommitment2
  {
    GetPutSlots(t, start, inners, start + 2 * s);
    GetPutSlots(t, start, inners, start + 2 * s + 1);
  }

  lemma NotesAreHeld(cfg: Config, t: Tree, r: RollupProofData, id: nat, input: BuildInput)
    requires input.Valid(cfg) && Publishes(cfg, r, id, input)
    ensures NotesHeld(cfg, PutSlots(t, r.dataStartIndex, r.innerProofData), id, r.dataStartIndex, input)
  {
    hide PutSlots, IsFirstNote, SlotOf, BuildInput.Valid, IsTx, IsTxSlot;
    forall k: nat, j: nat | IsTx(input.chunks, k, j)
      ensures var data := PutSlots(t, r.dataStartIndex, r.innerProofData);
              var tx, at := TxAt(input.chunks, k, j), r.dataStartIndex + 2 * SlotOf(cfg, k, j);
              IsFirstNote(cfg, id, input.AllBridges(), tx, data.Get(at)) && data.Get(at + 1) == tx.noteCommitment2
    {
      SlotRead(t, r.dataStartIndex, r.innerProofData, SlotOf(cfg, k, j));
    }
  }

  lemma OthersAreKept(cfg: Config, t: Tree, r: RollupProofData, id: nat, input: BuildInput)
    requires input.Valid(cfg) && Publishes(cfg, r, id, input) && t.Valid() && t.size <= r.dataStartIndex
    ensures OthersKept(cfg, t, PutSlots(t, r.dataStartIndex, r.innerProofData), r.dataStartIndex, input.chunks)
  {
    hide PutSlots, PublishesTx, SlotOf, BuildInput.Valid, IsTx;
    var start, inners := r.dataStartIndex, r.innerProofData;
    forall n: nat
      ensures IsNotePlace(cfg, start, input.chunks, n) || PutSlots(t, start, inners).Get(n) == t.Get(n)
    {
      GetPutSlots(t, start, inners, n);
      if start <= n < start + 2 * |inners| {
        var s := (n - start) / 2;
        if IsTxSlot(cfg, input.chunks, s) {
          var k: nat, j: nat :| IsTx(input.chunks, k, j) && s == SlotOf(cfg, k, j);
        } else {
          assert inners[s] == InnerProofData(PADDING, 0, 0, 0, 0);
        }
      }
    }
  }

  lemma NullifiersAreHeld(cfg: Config, t: Tree, r: RollupProofData, id: nat, input: BuildInput)
    requires input.Valid(cfg) && Publishes(cfg, r, id, input)
    ensures NullifiersHeld(t, PutNullifiers(t, r.innerProofData), input.chunks)
  {
    forall n: nat
      ensures PutNullifiers(t, r.innerProofData).Get(n) == if n != 0 && SpentBy(input.chunks, n) then 1 else t.Get(n)
    {
      GetPutNullifiers(t, r.innerProofData, n);
      hide PutNullifiers;
      if n != 0 {
        SpentIsNullified(cfg, r, id, input, n);
      }
    }
  }

  lemma SpentIsNullified(cfg: Config, r: RollupProofData, id: nat, input: BuildInput, n: nat)
    requires input.Valid(cfg) && Publishes(cfg, r, id, input) && n != 0
    ensures Nullifies(r.innerProofData, n) <==> SpentBy(input.chunks, n)
  {
    hide SlotOf, IsFirstNote;
    var inners := r.innerProofData;
    if Nullifies(inners, n) {
      var s :| 0 <= s < |inners| && !inners[s].IsPadding() && (inners[s].nullifier1 == n || inners[s].nullifier2 == n);
      assert IsTxSlot(cfg, input.chunks, s);
      var k: nat, j: nat :| IsTx(input.chunks, k, j) && s == SlotOf(cfg, k, j);
      assert PublishesTx(cfg, id, input.AllBridges(), TxAt(input.chunks, k, j), inners[s]);
    }
    if SpentBy(input.chunks, n) {
      var k: nat, j: nat :| IsTx(input.chunks, k, j)
                            && (TxAt(input.chunks, k, j).nullifier1 == n || TxAt(input.chunks, k, j).nullifier2 == n);
      assert ValidChunk(cfg, input.chunks[k]);
      assert PublishesTx(cfg, id, input.AllBridges(), TxAt(input.chunks, k, j), inners[SlotOf(cfg, k, j)]);
    }
  }

  lemma InteractionsAreHeld(t: Tree, id: nat, notes: seq<Leaf>)
    requires t.Valid() && (forall i | i in t.leaves :: i < id * NUM_BRIDGE_CALLS_PER_BLOCK)
    requires |notes| <= NUM_BRIDGE_CALLS_PER_BLOCK
    ensures InteractionsHeld(t, PutAll(t, id * 32, notes + Zeros(NUM_BRIDGE_CALLS_PER_BLOCK - |notes|)), id * 32, notes)
  {
    var all := notes + Zeros(NUM_BRIDGE_CALLS_PER_BLOCK - |notes|);
    forall n: nat
      ensures PutAll(t, id * 32, all).Get(n) ==
              if id * 32 <= n < id * 32 + |notes| then notes[n - id * 32] else t.Get(n)
    {
      GetPutAll(t, id * 32, all, n);
    }
  }

  /**
   * A rollup leaves in the builder's trees, and in those of whoever replays what was published of
   * it, exactly its own txs: each tx's two notes at its own place and no others, leaf 1 at exactly
   * their nullifiers besides those already there, and the interaction notes it carries.
   */
  lemma RollupHoldsItsTxs(cfg: Config, hash: map<nat, Leaf> -> Leaf, t: Trees, id: nat, input: BuildInput)
    requires input.Valid(cfg) && RollupAgreement.Settled(t, id)
    ensures var r, start := Published(cfg, hash, t, id, input), StartIndex(cfg, t.data.size, true);
            && HoldsTxs(cfg, t, Build(cfg, hash, t, id, input), id, start, input)
            && HoldsTxs(cfg, t, WorldStateSync.Replay(hash, t, r), id, start, input)
  {
    var r := Published(cfg, hash, t, id, input);
    var built, replayed := Build(cfg, hash, t, id, input), WorldStateSync.Replay(hash, t, r);
    PublishedIsTxs(cfg, hash, t, id, input);
    RollupAgreement.BuilderMatchesReplayer(cfg, hash, t, id, input);
    RollupAgreement.PublishedStart(cfg, hash, t, id, input);
    RollupAgreement.ReplayUnfolds(hash, t, r);
    NotesAreHeld(cfg, t.data, r, id, input);
    OthersAreKept(cfg, t.data, r, id, input);
    NullifiersAreHeld(cfg, t.nulls, r, id, input);
    InteractionsAreHeld(t.defi, id, input.interactionNotes);
    hide Publishes, PutSlots, PutNullifiers, PutAll, Build, WorldStateSync.Replay, StartIndex;
    SameContentsHold(cfg, t, replayed, built, id, r.dataStartIndex, input);
  }

  lemma SameContentsHold(cfg: Config, t: Trees, u: Trees, v: Trees, id: nat, start: nat, input: BuildInput)
    requires HoldsTxs(cfg, t, u, id, start, input)
    requires u.data.leaves == v.data.leaves && u.nulls.leaves == v.nulls.leaves && u.roots.leaves == v.roots.leaves
    requires u.defi.leaves == v.defi.leaves
    ensures HoldsTxs(cfg, t, v, id, start, input)
  {
    hide NotesHeld, OthersKept, NullifiersHeld, InteractionsHeld;
    SameData(cfg, t.data, u.data, v.data, id, start, input);
    SameNullifiersAndInteractions(t, u, v, id, input);
    assert forall n: nat :: v.roots.Get(n) == u.roots.Get(n);
  }

  lemma SameData(cfg: Config, t: Tree, a: Tree, b: Tree, id: nat, start: nat, input: BuildInput)
    requires NotesHeld(cfg, a, id, start, input) && OthersKept(cfg, t, a, start, input.chunks) && a.leaves == b.leaves
    ensures NotesHeld(cfg, b, id, start, input) && OthersKept(cfg, t, b, start, input.chunks)
  {
    assert forall n: nat :: b.Get(n) == a.Get(n);
    hide IsFirstNote, IsNotePlace, SlotOf, Tree.Get, IsTx;
  }

  lemma SameNullifiersAndInteractions(t: Trees, u: Trees, v: Trees, id: nat, input: BuildInput)
    requires NullifiersHeld(t.nulls, u.nulls, input.chunks) && u.nulls.leaves == v.nulls.leaves
    requires InteractionsHeld(t.defi, u.defi, id * 32, input.interactionNotes) && u.defi.leaves == v.defi.leaves
    ensures NullifiersHeld(t.nulls, v.nulls, input.chunks)
    ensures InteractionsHeld(t.defi, v.defi, id * 32, input.interactionNotes)
  {
    assert forall n: nat :: v.nulls.Get(n) == u.nulls.Get(n) && v.defi.Get(n) == u.defi.Get(n);
    hide SpentBy, Tree.Get;
  }
}
