/** DeFi claims: where a claim's note and its interaction note sit in the trees. */
module Claims {
  import Util
  import opened WorldStateStore
  import opened Rollup
  import DefiPayouts
  import opened RollupTrees
  import opened RollupBuild
  import opened WorldStateSync
  import RollupAgreement

  // ---- recorded claims point at their claim notes ----

  lemma {:induction false} NonPaddingAppend(a: seq<InnerProofData>, b: seq<InnerProofData>)
    ensures NonPadding(a + b) == NonPadding(a) + NonPadding(b)
  {
    if b == [] {
      assert a + b == a;
    } else {
      assert (a + b)[..|a + b| - 1] == a + b[..|b| - 1];
      NonPaddingAppend(a, b[..|b| - 1]);
    }
  }

  lemma {:induction false} NonPaddingFacts(inners: seq<InnerProofData>)
    ensures (forall i | 0 <= i < |inners| :: !inners[i].IsPadding()) ==> NonPadding(inners) == inners
    ensures (forall i | 0 <= i < |inners| :: inners[i].IsPadding()) ==> NonPadding(inners) == []
  {
    hide NumTxs;
    if inners != [] {
      NonPaddingFacts(inners[..|inners| - 1]);
    }
  }

  lemma NonPaddingOfPad(inners: seq<InnerProofData>, n: nat)
    ensures NonPadding(Pad(inners, n)) == NonPadding(inners)
  {
    var pad := Pad(inners, n)[|inners|..];
    assert Pad(inners, n) == inners + pad;
    NonPaddingAppend(inners, pad);
    NonPaddingFacts(pad);
  }

  /** Dropping the padding from the published slots leaves the txs, in order. */
  lemma {:induction false} PaddedInnersKeepTxs(cfg: Config, id: nat, bridges: seq<nat>, chunks: seq<seq<ProofData>>)
    requires CoversAll(bridges, chunks) && Covers(bridges, Flatten(chunks))
    requires forall k | 0 <= k < |chunks| :: ValidChunk(cfg, chunks[k])
    ensures NonPadding(PaddedInners(cfg, id, bridges, chunks)) == PublishAll(cfg, id, bridges, Flatten(chunks))
  {
    if chunks == [] {
      assert PublishAll(cfg, id, bridges, Flatten(chunks)) == [];
    } else {
      hide Publish, Pad, Covers, NonPadding;
      var n := |chunks| - 1;
      var front, last := Flatten(chunks[..n]), chunks[n];
      assert ValidChunk(cfg, last);
      CoversParts(bridges, front, last);
      PaddedInnersKeepTxs(cfg, id, bridges, chunks[..n]);
      PublishedChunk(cfg, id, bridges, last);
      PublishAllAppend(cfg, id, bridges, front, last);
      NonPaddingAppend(PaddedInners(cfg, id, bridges, chunks[..n]),
                       Pad(PublishAll(cfg, id, bridges, last), cfg.innerRollupSize));
    }
  }

  lemma CoversParts(bridges: seq<nat>, a: seq<ProofData>, b: seq<ProofData>)
    requires Covers(bridges, a + b)
    ensures Covers(bridges, a) && Covers(bridges, b)
  {
    forall i | 0 <= i < |a| ensures a[i] == (a + b)[i] {}
    forall i | 0 <= i < |b| ensures b[i] == (a + b)[|a| + i] {}
  }

  lemma PublishAllAppend(cfg: Config, id: nat, bridges: seq<nat>, a: seq<ProofData>, b: seq<ProofData>)
    requires Covers(bridges, a) && Covers(bridges, b)
    ensures Covers(bridges, a + b)
    ensures PublishAll(cfg, id, bridges, a + b) == PublishAll(cfg, id, bridges, a) + PublishAll(cfg, id, bridges, b)
  {
  }

  lemma PublishedChunk(cfg: Config, id: nat, bridges: seq<nat>, txs: seq<ProofData>)
    requires Covers(bridges, txs) && ValidChunk(cfg, txs)
    ensures var inners := PublishAll(cfg, id, bridges, txs); NonPadding(Pad(inners, cfg.innerRollupSize)) == inners
  {
    var inners := PublishAll(cfg, id, bridges, txs);
    NonPaddingOfPad(inners, cfg.innerRollupSize);
    NonPaddingFacts(inners);
  }

  function Deposits(txs: seq<ProofData>): seq<ProofData> {
    if txs == [] then []
    else Deposits(txs[..|txs| - 1]) + if txs[|txs| - 1].proofId == DEFI_DEPOSIT then [txs[|txs| - 1]] else []
  }

  /** The leaf the claim names holds tx's claim note, completed with the claim's own nonce and fee. */
  ghost predicate ClaimMatches(cfg: Config, data: Tree, tx: ProofData, c: Claim) {
    c.id >= 0 && c.interactionNonce >= 0
      && data.Get(c.id) == cfg.claimNote(tx.noteCommitment1, c.interactionNonce, c.fee)
  }

  ghost predicate OffchainOf(txs: seq<ProofData>, offchain: seq<OffchainData>) {
    |offchain| == |txs| && forall i | 0 <= i < |txs| :: offchain[i] == OffchainData(txs[i].bridgeCallData, txs[i].txFee)
  }

  lemma PublishedClaim(cfg: Config, r: RollupProofData, data: Tree, bridges: seq<nat>, tx: ProofData, i: nat)
    requires i < |r.innerProofData| && tx.proofId == DEFI_DEPOSIT && tx.bridgeCallData in bridges
    requires bridges <= r.bridgeCallDatas
    requires r.innerProofData[i] == Publish(cfg, r.rollupId, bridges, tx)
    requires data.Get(r.dataStartIndex + 2 * i) == r.innerProofData[i].noteCommitment1
    ensures r.innerProofData[i].proofId == DEFI_DEPOSIT
    ensures ClaimMatches(cfg, data, tx,
              Claim(r.dataStartIndex + i * 2, InteractionNonce(r.rollupId, r.bridgeCallDatas, tx.bridgeCallData),
                    ClaimFee(tx.txFee)))
  {
    PublishStable(cfg, r.rollupId, bridges, r.bridgeCallDatas, tx);
  }

  lemma PublishKeepsId(cfg: Config, id: nat, bridges: seq<nat>, tx: ProofData)
    requires tx.proofId == DEFI_DEPOSIT ==> tx.bridgeCallData in bridges
    ensures Publish(cfg, id, bridges, tx).proofId == tx.proofId
  {
  }

  ghost predicate ClaimsFound(cfg: Config, data: Tree, deposits: seq<ProofData>, claims: seq<Claim>) {
    |claims| == |deposits| && forall i | 0 <= i < |claims| :: ClaimMatches(cfg, data, deposits[i], claims[i])
  }

  lemma DepositsStep(txs: seq<ProofData>, n: nat)
    requires n < |txs|
    ensures Deposits(txs[..n + 1]) == Deposits(txs[..n]) + if txs[n].proofId == DEFI_DEPOSIT then [txs[n]] else []
  {
    assert txs[..n + 1][..n] == txs[..n];
  }

  lemma {:induction false} ClaimsOfPrefix(cfg: Config, r: RollupProofData, data: Tree, bridges: seq<nat>,
                                          txs: seq<ProofData>, offchain: seq<OffchainData>, n: nat)
    requires n <= |r.innerProofData| && Covers(bridges, txs) && OffchainOf(txs, offchain)
    requires bridges <= r.bridgeCallDatas
    requires NonPadding(r.innerProofData[..n]) <= PublishAll(cfg, r.rollupId, bridges, txs)
    requires forall i | 0 <= i < n :: data.Get(r.dataStartIndex + 2 * i) == r.innerProofData[i].noteCommitment1
    ensures var (claims, used) := ClaimsOf(r, offchain, n);
            used == |NonPadding(r.innerProofData[..n])| && ClaimsFound(cfg, data, Deposits(txs[..used]), claims)
  {
    hide Publish, InteractionNonce, ClaimMatches, ClaimFee, Util.FindIndex, NonPadding, Deposits;
    if n == 0 {
      NothingPublished(r, txs);
    } else {
      var p := r.innerProofData[n - 1];
      var before := NonPadding(r.innerProofData[..n - 1]);
      NonPaddingStep(r.innerProofData, n - 1);
      ClaimsOfPrefix(cfg, r, data, bridges, txs, offchain, n - 1);
      if !p.IsPadding() {
        NextOf(before, p, PublishAll(cfg, r.rollupId, bridges, txs));
        ClaimsStep(cfg, r, data, bridges, txs, offchain, n, |before|);
      }
    }
  }

  lemma NothingPublished(r: RollupProofData, txs: seq<ProofData>)
    ensures NonPadding(r.innerProofData[..0]) == [] && Deposits(txs[..0]) == []
  {
  }

  lemma NextOf(before: seq<InnerProofData>, p: InnerProofData, all: seq<InnerProofData>)
    requires before + [p] <= all
    ensures |before| < |all| && all[|before|] == p
  {
    assert (before + [p])[|before|] == p;
  }

  lemma ClaimsStep(cfg: Config, r: RollupProofData, data: Tree, bridges: seq<nat>, txs: seq<ProofData>,
                   offchain: seq<OffchainData>, n: nat, used: nat)
    requires 0 < n <= |r.innerProofData| && used < |txs| && Covers(bridges, txs) && OffchainOf(txs, offchain)
    requires bridges <= r.bridgeCallDatas && !r.innerProofData[n - 1].IsPadding()
    requires r.innerProofData[n - 1] == Publish(cfg, r.rollupId, bridges, txs[used])
    requires data.Get(r.dataStartIndex + 2 * (n - 1)) == r.innerProofData[n - 1].noteCommitment1
    requires ClaimsOf(r, offchain, n - 1).1 == used
             && ClaimsFound(cfg, data, Deposits(txs[..used]), ClaimsOf(r, offchain, n - 1).0)
    ensures ClaimsOf(r, offchain, n).1 == used + 1
    ensures ClaimsFound(cfg, data, Deposits(txs[..used + 1]), ClaimsOf(r, offchain, n).0)
  {
    hide Publish, InteractionNonce, ClaimMatches, ClaimFee, Util.FindIndex, NonPadding, Deposits;
    PublishKeepsId(cfg, r.rollupId, bridges, txs[used]);
    DepositsStep(txs, used);
    if txs[used].proofId == DEFI_DEPOSIT {
      PublishedClaim(cfg, r, data, bridges, txs[used], n - 1);
    }
  }

  lemma FirstNotes(t: Tree, start: nat, inners: seq<InnerProofData>)
    ensures forall i | 0 <= i < |inners| ::
              PutSlots(t, start, inners).Get(start + 2 * i) == inners[i].noteCommitment1
  {
    forall i | 0 <= i < |inners|
      ensures PutSlots(t, start, inners).Get(start + 2 * i) == inners[i].noteCommitment1
    {
      GetPutSlots(t, start, inners, start + 2 * i);
    }
  }

  /**
   * From the published rollup and its off-chain data the sequencer records one claim per DeFi
   * deposit, in order, each naming the data leaf that holds its claim note and the nonce and fee
   * the note was completed with when the rollup was built.
   */
  lemma ClaimsPointAtTheirNotes(cfg: Config, hash: map<nat, Leaf> -> Leaf, t: Trees, id: nat, input: BuildInput,
                                offchain: seq<OffchainData>)
    requires input.Valid(cfg) && RollupAgreement.Settled(t, id) && OffchainOf(Flatten(input.chunks), offchain)
    ensures var r := Published(cfg, hash, t, id, input);
            var claims := ClaimsOf(r, offchain, |r.innerProofData|).0;
            var deposits := Deposits(Flatten(input.chunks));
            && |claims| == |deposits|
            && forall i | 0 <= i < |claims| :: ClaimMatches(cfg, Replay(hash, t, r).data, deposits[i], claims[i])
  {
    hide Build, Pad, AddBridges, Publish, RootTrees, ClaimsOf, ClaimMatches, AlignUp, PutSlots, PutNullifiers, PutAll,
         Flatten, PaddedInners, Deposits, Covers, CoversAll, OffchainOf, NonPadding, Util.FindIndex;
    var r := Published(cfg, hash, t, id, input);
    var txs, n := Flatten(input.chunks), |r.innerProofData|;
    AddBridgesFacts(input.bridges, txs);
    FlattenCovers(input.AllBridges(), input.chunks);
    var slots := PaddedInners(cfg, id, input.AllBridges(), input.chunks);
    PaddedInnersKeepTxs(cfg, id, input.AllBridges(), input.chunks);
    NonPaddingOfPad(slots, cfg.outerRollupSize);
    var data := PutSlots(t.data, r.dataStartIndex, r.innerProofData);
    FirstNotes(t.data, r.dataStartIndex, r.innerProofData);
    assert r.innerProofData[..n] == r.innerProofData;
    ClaimsOfPrefix(cfg, r, data, input.AllBridges(), txs, offchain, n);
    assert txs[..|txs|] == txs;
  }

  // ---- interaction notes ----

  datatype RollupDao = RollupDao(id: nat, interactionResult: seq<DefiPayouts.DefiInteractionEvent>)

  /** The defi tree index a claim proof uses: the notes of rollup id are entered by rollup id + 1. */
  function InteractionIndex(rollup: RollupDao, interactionNonce: int): int {
    (rollup.id + 1) * NUM_BRIDGE_CALLS_PER_BLOCK + DefiPayouts.FindNonce(rollup.interactionResult, interactionNonce)
  }

  /**
   * If rollup id + 1 carries rollup id's results in order, then replaying it puts the note of the
   * result with the claim's nonce at exactly the index the claim proof uses.
   */
  lemma ClaimProofFindsItsNote(cfg: Config, hash: map<nat, Leaf> -> Leaf, t: Trees, rollup: RollupDao,
                               input: BuildInput, commit: DefiPayouts.DefiInteractionEvent -> Leaf, nonce: int)
    requires input.Valid(cfg) && RollupAgreement.Settled(t, rollup.id + 1)
    requires |input.interactionNotes| == |rollup.interactionResult|
    requires forall k | 0 <= k < |input.interactionNotes| ::
               input.interactionNotes[k] == commit(rollup.interactionResult[k])
    requires DefiPayouts.FindNonce(rollup.interactionResult, nonce) != -1
    ensures var next := Published(cfg, hash, t, rollup.id + 1, input);
            var event := rollup.interactionResult[DefiPayouts.FindNonce(rollup.interactionResult, nonce)];
            var index := InteractionIndex(rollup, nonce);
            event.nonce == nonce && index >= 0 && Replay(hash, t, next).defi.Get(index) == commit(event)
  {
    hide Build, Pad, AddBridges, RootTrees, AlignUp, PutSlots, PutNullifiers, PutAll, Flatten, PaddedInners, Covers,
         CoversAll, RollupAgreement.Settled, Util.FindIndex;
    var next := Published(cfg, hash, t, rollup.id + 1, input);
    GetPutAll(t.defi, (rollup.id + 1) * NUM_BRIDGE_CALLS_PER_BLOCK, next.defiInteractionNotes,
              InteractionIndex(rollup, nonce));
  }
}
