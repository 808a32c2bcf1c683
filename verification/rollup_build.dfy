/**
 * One whole rollup as falafel builds it: the pipeline enters the last rollup's interaction notes,
 * the coordinator runs createRollup over the chunks in order, the aggregator closes the rollup.
 */
module RollupBuild {
  import opened WorldStateStore
  import opened Rollup
  import RollupTrees
  import opened RollupCreation

  datatype BuildInput = BuildInput(chunks: seq<seq<ProofData>>, interactionNotes: seq<Leaf>, bridges: seq<nat>)
  {
    /** The rollup's bridge calls once all its txs are in. */
    function AllBridges(): seq<nat> { AddBridges(bridges, Flatten(chunks)) }

    ghost predicate Valid(cfg: Config) {
      && cfg.Valid()
      && 1 <= |chunks| <= cfg.numOuterRollupProofs
      && (forall k | 0 <= k < |chunks| :: ValidChunk(cfg, chunks[k]))
      && |interactionNotes| <= NUM_BRIDGE_CALLS_PER_BLOCK
      && |AllBridges()| <= NUM_BRIDGE_CALLS_PER_BLOCK
    }
  }

  ghost predicate ValidChunk(cfg: Config, txs: seq<ProofData>) {
    1 <= |txs| <= cfg.numInnerRollupTxs && forall i | 0 <= i < |txs| :: txs[i].proofId != PADDING
  }

  function Flatten(chunks: seq<seq<ProofData>>): seq<ProofData> {
    if chunks == [] then [] else Flatten(chunks[..|chunks| - 1]) + chunks[|chunks| - 1]
  }

  ghost predicate CoversAll(bridges: seq<nat>, chunks: seq<seq<ProofData>>) {
    forall k | 0 <= k < |chunks| :: Covers(bridges, chunks[k])
  }

  lemma {:induction false} FlattenCovers(bridges: seq<nat>, chunks: seq<seq<ProofData>>)
    requires Covers(bridges, Flatten(chunks))
    ensures CoversAll(bridges, chunks)
  {
    if chunks != [] {
      var front, last := chunks[..|chunks| - 1], chunks[|chunks| - 1];
      var n := |Flatten(front)|;
      forall i | 0 <= i < n ensures Flatten(front)[i] == Flatten(chunks)[i] {}
      forall i | 0 <= i < |last| ensures last[i] == Flatten(chunks)[n + i] {}
      FlattenCovers(bridges, front);
      forall k | 0 <= k < |chunks| ensures Covers(bridges, chunks[k]) {
        if k < |front| { assert chunks[k] == front[k]; }
      }
    }
  }

  /** The trees after the inner rollups of `chunks`, when the rollup's bridge calls are `bridges`. */
  function BuildInners(cfg: Config, id: nat, t: Trees, bridges: seq<nat>, chunks: seq<seq<ProofData>>): Trees
    requires cfg.Valid() && CoversAll(bridges, chunks)
  {
    if chunks == [] then t
    else
      var n := |chunks| - 1;
      var before := BuildInners(cfg, id, t, bridges, chunks[..n]);
      InnerTrees(cfg, before, StartIndex(cfg, before.data.size, n == 0), PublishAll(cfg, id, bridges, chunks[n]))
  }

  function RootTrees(cfg: Config, hash: map<nat, Leaf> -> Leaf, t: Trees, start: nat, numProofs: nat): Trees
    requires cfg.outerRollupSize > 0
  {
    var closed := t.Put(ROOT, t.roots.size, hash(t.data.leaves));
    if numProofs < cfg.numOuterRollupProofs then closed.Put(DATA, start + cfg.outerRollupSize * 2 - 1, 0) else closed
  }

  function EnterNotes(t: Trees, id: nat, notes: seq<Leaf>): Trees {
    t.(defi := RollupTrees.PutAll(t.defi, id * NUM_BRIDGE_CALLS_PER_BLOCK, notes))
  }

  /** The builder's trees when the rollup is done. */
  function Build(cfg: Config, hash: map<nat, Leaf> -> Leaf, t: Trees, id: nat, input: BuildInput): Trees
    requires input.Valid(cfg)
  {
    AddBridgesFacts(input.bridges, Flatten(input.chunks));
    FlattenCovers(input.AllBridges(), input.chunks);
    var inners := BuildInners(cfg, id, EnterNotes(t, id, input.interactionNotes), input.AllBridges(), input.chunks);
    RootTrees(cfg, hash, inners, StartIndex(cfg, t.data.size, true), |input.chunks|)
  }

  /** The inner proofs of `chunks`, each inner rollup padded to its full size. */
  function PaddedInners(cfg: Config, id: nat, bridges: seq<nat>, chunks: seq<seq<ProofData>>): seq<InnerProofData>
    requires CoversAll(bridges, chunks)
  {
    if chunks == [] then []
    else
      PaddedInners(cfg, id, bridges, chunks[..|chunks| - 1])
      + RollupTrees.Pad(PublishAll(cfg, id, bridges, chunks[|chunks| - 1]), cfg.innerRollupSize)
  }

  /** What goes on chain for the rollup. */
  function Published(cfg: Config, hash: map<nat, Leaf> -> Leaf, t: Trees, id: nat, input: BuildInput): RollupProofData
    requires input.Valid(cfg)
  {
    AddBridgesFacts(input.bridges, Flatten(input.chunks));
    FlattenCovers(input.AllBridges(), input.chunks);
    var built := Build(cfg, hash, t, id, input);
    RollupProofData(
      id, StartIndex(cfg, t.data.size, true),
      RollupTrees.Pad(PaddedInners(cfg, id, input.AllBridges(), input.chunks), cfg.outerRollupSize),
      input.AllBridges() + RollupTrees.Zeros(NUM_BRIDGE_CALLS_PER_BLOCK - |input.AllBridges()|),
      input.interactionNotes + RollupTrees.Zeros(NUM_BRIDGE_CALLS_PER_BLOCK - |input.interactionNotes|),
      hash(built.data.leaves), hash(built.nulls.leaves), hash(built.roots.leaves), hash(built.defi.leaves))
  }

  class RollupAggregator {
    const db: WorldStateDb
    const cfg: Config

    constructor (db: WorldStateDb, cfg: Config)
      ensures this.db == db && this.cfg == cfg
    {
      this.db, this.cfg := db, cfg;
    }

    method CreateRootRollup(rollupProofs: seq<TxRollup>)
      requires cfg.Valid() && rollupProofs != []
      modifies db
      ensures db.working ==
              RootTrees(cfg, db.hash, old(db.working), rollupProofs[0].dataStartIndex, |rollupProofs|)
      ensures db.committed == old(db.committed)
    {
      var newDataRoot := db.GetRoot(DATA);
      var rootTreeSize := db.GetSize(ROOT);
      db.Put(ROOT, rootTreeSize, newDataRoot);
      if |rollupProofs| < cfg.numOuterRollupProofs {
        var endIndex := rollupProofs[0].dataStartIndex + cfg.outerRollupSize * 2 - 1;
        db.Put(DATA, endIndex, 0);
      }
    }
  }

  class RollupCoordinator {
    const db: WorldStateDb
    const cfg: Config
    const creator: RollupCreator
    const aggregator: RollupAggregator

    constructor (db: WorldStateDb, cfg: Config)
      ensures this.db == db && this.cfg == cfg && Wired()
    {
      this.db, this.cfg := db, cfg;
      creator := new RollupCreator(db, cfg);
      aggregator := new RollupAggregator(db, cfg);
    }

    ghost predicate Wired() {
      creator.db == db && creator.cfg == cfg && aggregator.db == db && aggregator.cfg == cfg
    }

    /** Enters the commitments of the last rollup's interaction results, before any rollup is built. */
    method Init(rollupId: nat, interactionNotes: seq<Leaf>)
      modifies db
      ensures db.working == EnterNotes(old(db.working), rollupId, interactionNotes)
      ensures db.committed == old(db.committed)
    {
      var start := rollupId * NUM_BRIDGE_CALLS_PER_BLOCK;
      assert interactionNotes[..0] == [];
      for i := 0 to |interactionNotes|
        invariant db.working == EnterNotes(old(db.working), rollupId, interactionNotes[..i])
        invariant db.committed == old(db.committed)
      {
        assert interactionNotes[..i + 1][..i] == interactionNotes[..i];
        db.Put(DEFI, start + i, interactionNotes[i]);
      }
      assert interactionNotes[..|interactionNotes|] == interactionNotes;
    }

    method BuildRollup(rollupId: nat, input: BuildInput) returns (rollups: seq<TxRollup>)
      requires Wired() && input.Valid(cfg)
      modifies db
      ensures db.working == Build(cfg, db.hash, old(db.working), rollupId, input)
      ensures db.committed == old(db.committed)
      ensures |rollups| == |input.chunks|
    {
      AddBridgesFacts(input.bridges, Flatten(input.chunks));
      FlattenCovers(input.AllBridges(), input.chunks);
      Init(rollupId, input.interactionNotes);
      var resources := new RollupResources(input.bridges);
      rollups := BuildChunks(rollupId, input.chunks, resources, input.AllBridges());
      aggregator.CreateRootRollup(rollups);
    }

    method BuildChunks(rollupId: nat, chunks: seq<seq<ProofData>>, resources: RollupResources, ghost all: seq<nat>)
      returns (rollups: seq<TxRollup>)
      requires Wired() && cfg.Valid()
      requires chunks != [] && forall k | 0 <= k < |chunks| :: ValidChunk(cfg, chunks[k])
      requires all == AddBridges(resources.bridgeCallDatas, Flatten(chunks)) && CoversAll(all, chunks)
      modifies db, resources
      ensures db.working == BuildInners(cfg, rollupId, old(db.working), all, chunks)
      ensures db.committed == old(db.committed)
      ensures resources.bridgeCallDatas == all
      ensures |rollups| == |chunks|
      ensures rollups[0].dataStartIndex == StartIndex(cfg, old(db.working).data.size, true)
    {
      hide IsLinkIndex, InnerTrees, PublishAll, Publish, CommittedBefore, RollupTrees.AlignUp;
      ghost var bridges := resources.bridgeCallDatas;
      rollups := [];
      for i := 0 to |chunks|
        modifies db, resources
        invariant |rollups| == i
        invariant resources.bridgeCallDatas == AddBridges(bridges, Flatten(chunks[..i]))
        invariant db.working == BuildInners(cfg, rollupId, old(db.working), all, chunks[..i])
        invariant db.committed == old(db.committed)
        invariant i > 0 ==> rollups[0].dataStartIndex == StartIndex(cfg, old(db.working).data.size, true)
      {
        assert ValidChunk(cfg, chunks[i]);
        BridgesSoFar(bridges, chunks, i);
        var rollup := creator.CreateRollup(rollupId, chunks[i], resources, i == 0);
        SamePublished(cfg, rollupId, resources.bridgeCallDatas, all, chunks[i]);
        BuildInnersStep(cfg, rollupId, old(db.working), all, chunks, i);
        rollups := rollups + [rollup];
      }
      assert chunks[..|chunks|] == chunks;
    }
  }

  lemma BuildInnersStep(cfg: Config, id: nat, t: Trees, bridges: seq<nat>, chunks: seq<seq<ProofData>>, i: nat)
    requires cfg.Valid() && CoversAll(bridges, chunks) && i < |chunks|
    ensures var before := BuildInners(cfg, id, t, bridges, chunks[..i]);
            BuildInners(cfg, id, t, bridges, chunks[..i + 1]) ==
            InnerTrees(cfg, before, StartIndex(cfg, before.data.size, i == 0), PublishAll(cfg, id, bridges, chunks[i]))
  {
    hide InnerTrees, StartIndex, PublishAll, Covers, Config.Valid;
    assert chunks[..i + 1][..i] == chunks[..i];
  }

  lemma {:induction false} FlattenPrefix(chunks: seq<seq<ProofData>>, i: nat)
    requires i <= |chunks|
    ensures Flatten(chunks[..i]) <= Flatten(chunks)
  {
    if i == |chunks| {
      assert chunks[..i] == chunks;
    } else {
      var front := chunks[..|chunks| - 1];
      assert front[..i] == chunks[..i];
      FlattenPrefix(front, i);
    }
  }

  lemma BridgesSoFar(bridges: seq<nat>, chunks: seq<seq<ProofData>>, i: nat)
    requires i < |chunks|
    ensures AddBridges(AddBridges(bridges, Flatten(chunks[..i])), chunks[i]) ==
            AddBridges(bridges, Flatten(chunks[..i + 1]))
    ensures AddBridges(bridges, Flatten(chunks[..i + 1])) <= AddBridges(bridges, Flatten(chunks))
  {
    assert chunks[..i + 1][..i] == chunks[..i];
    AddBridgesAppend(bridges, Flatten(chunks[..i]), chunks[i]);
    FlattenPrefix(chunks, i + 1);
    var a, b := Flatten(chunks[..i + 1]), Flatten(chunks);
    assert b == a + b[|a|..];
    AddBridgesAppend(bridges, a, b[|a|..]);
    AddBridgesFacts(AddBridges(bridges, a), b[|a|..]);
  }

  lemma SamePublished(cfg: Config, id: nat, bridges: seq<nat>, all: seq<nat>, ps: seq<ProofData>)
    requires Covers(bridges, ps) && bridges <= all
    ensures Covers(all, ps)
    ensures PublishAll(cfg, id, bridges, ps) == PublishAll(cfg, id, all, ps)
  {
    forall i | 0 <= i < |ps|
      ensures ps[i].proofId == DEFI_DEPOSIT ==> ps[i].bridgeCallData in all
      ensures ps[i].proofId == DEFI_DEPOSIT ==> Publish(cfg, id, all, ps[i]) == Publish(cfg, id, bridges, ps[i])
    {
      if ps[i].proofId == DEFI_DEPOSIT {
        PublishStable(cfg, id, bridges, all, ps[i]);
      }
    }
  }
}
