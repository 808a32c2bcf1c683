/**
 * What a rollup is: the client proofs that go in, the inner proofs that are published, and the
 * numbering of the bridge interactions they start.
 */
module Rollup {
  import Arithmetic
  import Util
  import opened WorldStateStore

  const NUM_BRIDGE_CALLS_PER_BLOCK: nat := 32

  datatype ProofId = PADDING | DEPOSIT | WITHDRAW | SEND | ACCOUNT | DEFI_DEPOSIT | DEFI_CLAIM

  /** The public inputs of a client proof that the sequencer reads. */
  datatype ProofData = ProofData(
    proofId: ProofId, noteCommitment1: Leaf, noteCommitment2: Leaf, nullifier1: nat, nullifier2: nat,
    publicValue: nat, publicOwner: nat, publicAssetId: nat,
    txFee: nat, feeAssetId: nat, bridgeCallData: nat, backwardLink: Leaf)

  /** What is published of a client proof. */
  datatype InnerProofData = InnerProofData(
    proofId: ProofId, noteCommitment1: Leaf, noteCommitment2: Leaf, nullifier1: nat, nullifier2: nat)
  {
    predicate IsPadding() { proofId == PADDING }
  }

  /** The number of inner proofs that are not padding. */
  function NumTxs(inners: seq<InnerProofData>): nat {
    if inners == [] then 0
    else NumTxs(inners[..|inners| - 1]) + if inners[|inners| - 1].IsPadding() then 0 else 1
  }

  /** The inner proofs that are not padding. */
  function NonPadding(inners: seq<InnerProofData>): (r: seq<InnerProofData>)
    ensures |r| == NumTxs(inners)
  {
    if inners == [] then []
    else NonPadding(inners[..|inners| - 1]) + if inners[|inners| - 1].IsPadding() then [] else [inners[|inners| - 1]]
  }

  lemma NonPaddingStep(inners: seq<InnerProofData>, n: nat)
    requires n < |inners|
    ensures NonPadding(inners[..n + 1]) == NonPadding(inners[..n]) + if inners[n].IsPadding() then [] else [inners[n]]
  {
    assert inners[..n + 1][..n] == inners[..n];
  }

  lemma {:induction false} NumTxsMonotone(inners: seq<InnerProofData>, i: nat)
    requires i <= |inners|
    ensures NumTxs(inners[..i]) <= NumTxs(inners)
  {
    if i == |inners| {
      assert inners[..i] == inners;
    } else {
      assert inners[..|inners| - 1][..i] == inners[..i];
      NumTxsMonotone(inners[..|inners| - 1], i);
    }
  }

  const PaddingProof := InnerProofData(PADDING, 0, 0, 0, 0)

  datatype RollupProofData = RollupProofData(
    rollupId: nat, dataStartIndex: nat, innerProofData: seq<InnerProofData>, bridgeCallDatas: seq<nat>,
    defiInteractionNotes: seq<Leaf>,
    newDataRoot: Leaf, newNullRoot: Leaf, newDataRootsRoot: Leaf, newDefiRoot: Leaf)

  /** Pipeline sizes, and completing a partial claim note: (partial commitment, nonce, fee). */
  datatype Config = Config(
    numInnerRollupTxs: nat, innerRollupSize: nat, outerRollupSize: nat, numOuterRollupProofs: nat,
    claimNote: (Leaf, nat, nat) -> Leaf)
  {
    ghost predicate Valid() {
      && 1 <= numInnerRollupTxs <= innerRollupSize
      && 1 <= numOuterRollupProofs
      && 0 < outerRollupSize
      && exists k: nat :: numOuterRollupProofs <= k && Holds(outerRollupSize, k, innerRollupSize)
    }
  }

  // ---- pipeline sizes ----

  /** The outer rollup has room for exactly k inner rollups. */
  ghost predicate Holds(outer: nat, k: nat, inner: nat) { outer == inner * k }

  /** The least power of two that is at least n, i.e. `1 << ceil(log2(n))`. */
  function Pow2Ceil(n: nat): (r: nat)
    requires n >= 1
    ensures n <= r
    ensures n > 1 ==> r < 2 * n
  {
    if n == 1 then 1 else 2 * Pow2Ceil((n + 1) / 2)
  }

  function MakeConfig(numInnerRollupTxs: nat, numOuterRollupProofs: nat, claimNote: (Leaf, nat, nat) -> Leaf): Config
    requires numInnerRollupTxs >= 1 && numOuterRollupProofs >= 1
  {
    var innerRollupSize := Pow2Ceil(numInnerRollupTxs);
    assert innerRollupSize * numOuterRollupProofs >= 1;
    Config(numInnerRollupTxs, innerRollupSize, Pow2Ceil(innerRollupSize * numOuterRollupProofs),
           numOuterRollupProofs, claimNote)
  }

  lemma {:induction false} Pow2CeilScales(n: nat, m: nat)
    requires n >= 1 && m >= 1
    ensures Pow2Ceil(n) * m >= 1
    ensures Pow2Ceil(Pow2Ceil(n) * m) == Pow2Ceil(n) * Pow2Ceil(m)
  {
    if n > 1 {
      var h := (n + 1) / 2;
      Pow2CeilScales(h, m);
      Doubles(Pow2Ceil(h) * m);
      Arithmetic.MulAssociative(2, Pow2Ceil(h), m);
      Arithmetic.MulAssociative(2, Pow2Ceil(h), Pow2Ceil(m));
    }
  }

  lemma Doubles(x: nat)
    requires x >= 1
    ensures Pow2Ceil(2 * x) == 2 * Pow2Ceil(x)
  {
    assert (2 * x + 1) / 2 == x;
  }

  /** Every pair of sizes the pipeline is started with gives nested, aligned subtrees. */
  lemma PipelineSizesNest(numInnerRollupTxs: nat, numOuterRollupProofs: nat, claimNote: (Leaf, nat, nat) -> Leaf)
    requires numInnerRollupTxs >= 1 && numOuterRollupProofs >= 1
    ensures MakeConfig(numInnerRollupTxs, numOuterRollupProofs, claimNote).Valid()
  {
    Pow2CeilScales(numInnerRollupTxs, numOuterRollupProofs);
    SizesNest(numInnerRollupTxs, numOuterRollupProofs, Pow2Ceil(numInnerRollupTxs), Pow2Ceil(numOuterRollupProofs),
              claimNote);
  }

  lemma SizesNest(n: nat, m: nat, inner: nat, k: nat, claimNote: (Leaf, nat, nat) -> Leaf)
    requires 1 <= n <= inner && 1 <= m <= k
    ensures inner * k > 0
    ensures Config(n, inner, inner * k, m, claimNote).Valid()
  {
    Arithmetic.MulMonotone(1, inner, k);
    assert Holds(inner * k, k, inner);
  }

  // ---- bridge calls and interaction nonces ----

  /** The rollup's list of bridge calls after a proof: a deposit to a new bridge call appends it. */
  function AddBridge(bridges: seq<nat>, p: ProofData): seq<nat> {
    if p.proofId == DEFI_DEPOSIT && p.bridgeCallData !in bridges then bridges + [p.bridgeCallData] else bridges
  }

  function AddBridges(bridges: seq<nat>, ps: seq<ProofData>): seq<nat> {
    if ps == [] then bridges else AddBridge(AddBridges(bridges, ps[..|ps| - 1]), ps[|ps| - 1])
  }

  function ClaimFee(txFee: nat): nat { txFee - txFee / 2 }

  /** The nonce every reader of a published rollup computes for a deposit to `bridgeCallData`. */
  function InteractionNonce(rollupId: nat, bridges: seq<nat>, bridgeCallData: nat): int {
    Util.FindIndex(bridges, bridgeCallData) + rollupId * NUM_BRIDGE_CALLS_PER_BLOCK
  }

  /** The inner proof published for p when the rollup's bridge calls are `bridges`. */
  function Publish(cfg: Config, rollupId: nat, bridges: seq<nat>, p: ProofData): InnerProofData
    requires p.proofId == DEFI_DEPOSIT ==> p.bridgeCallData in bridges
  {
    var note1 :=
      if p.proofId == DEFI_DEPOSIT
      then cfg.claimNote(p.noteCommitment1, InteractionNonce(rollupId, bridges, p.bridgeCallData), ClaimFee(p.txFee))
      else p.noteCommitment1;
    InnerProofData(p.proofId, note1, p.noteCommitment2, p.nullifier1, p.nullifier2)
  }

  ghost predicate Covers(bridges: seq<nat>, ps: seq<ProofData>) {
    forall i | 0 <= i < |ps| && ps[i].proofId == DEFI_DEPOSIT :: ps[i].bridgeCallData in bridges
  }

  function PublishAll(cfg: Config, rollupId: nat, bridges: seq<nat>, ps: seq<ProofData>): (r: seq<InnerProofData>)
    requires Covers(bridges, ps)
    ensures |r| == |ps|
    ensures forall i | 0 <= i < |ps| :: r[i] == Publish(cfg, rollupId, bridges, ps[i])
  {
    seq(|ps|, i requires 0 <= i < |ps| => Publish(cfg, rollupId, bridges, ps[i]))
  }

  ghost predicate NoDuplicates(s: seq<nat>) {
    forall i, j | 0 <= i < j < |s| :: s[i] != s[j]
  }

  lemma {:induction false} AddBridgesFacts(bridges: seq<nat>, ps: seq<ProofData>)
    ensures bridges <= AddBridges(bridges, ps)
    ensures Covers(AddBridges(bridges, ps), ps)
    ensures NoDuplicates(bridges) ==> NoDuplicates(AddBridges(bridges, ps))
  {
    if ps != [] {
      AddBridgesFacts(bridges, ps[..|ps| - 1]);
    }
  }

  /** Only DeFi deposits add a bridge call. */
  lemma {:induction false} OnlyDepositsAddBridges(bridges: seq<nat>, ps: seq<ProofData>, call: nat)
    ensures call in AddBridges(bridges, ps) <==>
            || call in bridges
            || exists i :: 0 <= i < |ps| && ps[i].proofId == DEFI_DEPOSIT && ps[i].bridgeCallData == call
  {
    if ps != [] {
      var n := |ps| - 1;
      OnlyDepositsAddBridges(bridges, ps[..n], call);
      assert ps == ps[..n] + [ps[n]];
      if i :| 0 <= i < |ps| && ps[i].proofId == DEFI_DEPOSIT && ps[i].bridgeCallData == call {
        assert i < n ==> ps[..n][i] == ps[i];
      }
    }
  }

  lemma {:induction false} AddBridgesAppend(bridges: seq<nat>, a: seq<ProofData>, b: seq<ProofData>)
    ensures AddBridges(bridges, a + b) == AddBridges(AddBridges(bridges, a), b)
  {
    if b == [] {
      assert a + b == a;
    } else {
      assert (a + b)[..|a + b| - 1] == a + b[..|b| - 1];
      AddBridgesAppend(bridges, a, b[..|b| - 1]);
    }
  }

  /** Bridge calls added later do not change the nonce, so not the published proof either. */
  lemma PublishStable(cfg: Config, rollupId: nat, bridges: seq<nat>, more: seq<nat>, p: ProofData)
    requires p.proofId == DEFI_DEPOSIT ==> p.bridgeCallData in bridges
    requires bridges <= more
    ensures Publish(cfg, rollupId, more, p) == Publish(cfg, rollupId, bridges, p)
  {
    if p.proofId == DEFI_DEPOSIT {
      assert more == bridges + more[|bridges|..];
      Util.FindIndexPrefix(bridges, more[|bridges|..], p.bridgeCallData);
    }
  }

  /**
   * With at most 32 bridge calls per rollup, a nonce names one rollup and one bridge call. (The
   * sequencer refuses a 33rd, and never lists one twice.)
   */
  lemma NonceIsUnique(id1: nat, bridges1: seq<nat>, b1: nat, id2: nat, bridges2: seq<nat>, b2: nat)
    requires |bridges1| <= NUM_BRIDGE_CALLS_PER_BLOCK && |bridges2| <= NUM_BRIDGE_CALLS_PER_BLOCK
    requires b1 in bridges1 && b2 in bridges2
    requires id1 == id2 ==> bridges1 == bridges2
    ensures InteractionNonce(id1, bridges1, b1) == InteractionNonce(id2, bridges2, b2) <==> id1 == id2 && b1 == b2
  {
    var i, j := Util.FindIndex(bridges1, b1), Util.FindIndex(bridges2, b2);
    assert bridges1[i] == b1 && bridges2[j] == b2;
    if id1 < id2 {
      assert id1 * 32 + i < id2 * 32 + j;
    } else if id2 < id1 {
      assert id2 * 32 + j < id1 * 32 + i;
    }
  }
}
